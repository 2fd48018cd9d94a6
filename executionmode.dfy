/** The live view of a run in the browser (src/components/execution/ExecutionMode.jsx): the
    reducer that folds each message of the event stream into the view's state, and the guard
    and reset of the clarification reply. The stream, `JSON.parse` of each message and the
    POST of the reply are outside the model: the reducer receives the parsed message and the
    reply is told whether its request went through. */
module ExecutionView {
  import opened Js
  import opened JsText
  import opened Events

  /** The component's state: the timeline entries, the artifacts by id (in insertion order),
      the contentions, the completion flag, the pending clarification question, the typed
      answer, and the last data handed to the `onComplete` callback. */
  datatype UiState = UiState(
    events: seq<Value>,
    artifacts: seq<(string, Value)>,
    contentions: seq<Value>,
    isComplete: bool,
    clarification: Option<Value>,
    answer: string,
    handedOver: Option<Value>)

  const InitialUi := UiState([], [], [], false, None, "", None)

  const DestructureError := "Cannot destructure property 'type' of 'parsedData' as it is null."
  const DefaultQuestion := "Clarification needed..."

  /** A timeline entry `{agent, action, status}` the view adds itself. */
  function Entry(agent: string, action: string, status: string): Value
  {
    Obj([("agent", Str(agent)), ("action", Str(action)), ("status", Str(status))])
  }

  /** `c.id === data.id` for one contention, reading `c.id` first. */
  function SameId(c: Value, data: Value): Outcome<bool>
  {
    match Prop(c, "id")
    case Threw(m) => Threw(m)
    case Returned(a) =>
      match Prop(data, "id")
      case Threw(m) => Threw(m)
      case Returned(b) => Returned(StrictEquals(a, b))
  }

  /** `c` and `data` have ids and they are strictly equal. */
  predicate Matches(c: Value, data: Value)
  {
    SameId(c, data) == Returned(true)
  }

  /** `prev.findIndex(c => c.id === data.id)`, from position `i` on; a property read on a
      null entry or on null data throws out of the search. */
  function FindContention(prev: seq<Value>, data: Value, i: nat): (r: Outcome<int>)
    requires i <= |prev|
    ensures r.Returned? ==> r.value == -1 || i <= r.value < |prev|
    ensures r.Returned? && r.value >= 0 ==>
      Matches(prev[r.value], data) && forall k :: i <= k < r.value ==> !Matches(prev[k], data)
    ensures r.Returned? && r.value == -1 ==> forall k :: i <= k < |prev| ==> !Matches(prev[k], data)
    ensures (forall k :: i <= k < |prev| ==> prev[k].Obj?) && data.Obj? ==> r.Returned?
    decreases |prev| - i
  {
    if i == |prev| then Returned(-1)
    else
      match SameId(prev[i], data)
      case Threw(m) => Threw(m)
      case Returned(same) =>
        if same then Returned(i)
        else
          assert !Matches(prev[i], data);
          FindContention(prev, data, i + 1)
  }

  /** The contention update: the first entry with the same id is replaced in place, or the
      data is appended. */
  function Upsert(prev: seq<Value>, data: Value): (r: Outcome<seq<Value>>)
    ensures r.Threw? <==> FindContention(prev, data, 0).Threw?
    ensures r.Returned? && FindContention(prev, data, 0).Returned? && FindContention(prev, data, 0).value >= 0 ==>
      var idx := FindContention(prev, data, 0).value;
      |r.value| == |prev| && r.value[idx] == data
      && forall k :: 0 <= k < |prev| && k != idx ==> r.value[k] == prev[k]
    ensures r.Returned? && FindContention(prev, data, 0).Returned? && FindContention(prev, data, 0).value == -1 ==>
      r.value == prev + [data]
  {
    match FindContention(prev, data, 0)
    case Threw(m) => Threw(m)
    case Returned(idx) => if idx >= 0 then Returned(prev[idx := data]) else Returned(prev + [data])
  }

  /** `type === name` */
  predicate IsType(t: Value, name: string)
  {
    StrictEquals(t, Str(name))
  }

  /** The handler's branches for a message of type `t` carrying `data`. */
  function Apply(st: UiState, t: Value, data: Value): (r: Outcome<UiState>)
    ensures r.Returned? ==> r.value.answer == st.answer
    ensures IsType(t, "timeline_event") ==> r == Returned(st.(events := st.events + [data]))
    ensures IsType(t, "artifact_update") ==> (r.Threw? <==> data.Null? || data.Undefined?)
    ensures IsType(t, "artifact_update") && r.Returned? ==>
      var key := ToString(Prop(data, "id").value);
      r.value == st.(artifacts := r.value.artifacts) && Get(r.value.artifacts, key) == data
      && forall k :: k != key ==> Get(r.value.artifacts, k) == Get(st.artifacts, k)
    ensures IsType(t, "contention") ==>
      (r.Threw? <==> Upsert(st.contentions, data).Threw?)
      && (r.Returned? ==> r.value == st.(contentions := Upsert(st.contentions, data).value))
    ensures IsType(t, "completion") ==> r == Returned(st.(isComplete := true, handedOver := Some(data)))
    ensures IsType(t, "error") ==>
      r == Returned(st.(events := st.events + [Entry("System", "ERROR: " + ToString(data), "revised")]))
    ensures IsType(t, "clarification") ==> (r.Threw? <==> data.Null? || data.Undefined?)
    ensures IsType(t, "clarification") && r.Returned? ==>
      var question := Or(Prop(data, "question").value, Str(DefaultQuestion));
      r.value == st.(clarification := Some(question),
                     events := st.events + [Entry("System", "Waiting for user input: " + ToString(question), "pending")])
    ensures (!(IsType(t, "timeline_event") || IsType(t, "artifact_update") || IsType(t, "contention")
               || IsType(t, "completion") || IsType(t, "error") || IsType(t, "clarification")))
            ==> r == Returned(st)
  {
    if IsType(t, "timeline_event") then Returned(st.(events := st.events + [data]))
    else if IsType(t, "artifact_update") then
      match Prop(data, "id")
      case Threw(m) => Threw(m)
      case Returned(id) =>
        SetKeepsOthers(st.artifacts, ToString(id), data);
        Returned(st.(artifacts := Set(st.artifacts, ToString(id), data)))
    else if IsType(t, "contention") then
      match Upsert(st.contentions, data)
      case Threw(m) => Threw(m)
      case Returned(cs) => Returned(st.(contentions := cs))
    else if IsType(t, "completion") then Returned(st.(isComplete := true, handedOver := Some(data)))
    else if IsType(t, "error") then
      Returned(st.(events := st.events + [Entry("System", "ERROR: " + ToString(data), "revised")]))
    else if IsType(t, "clarification") then
      match Prop(data, "question")
      case Threw(m) => Threw(m)
      case Returned(q) =>
        var question := Or(q, Str(DefaultQuestion));
        Returned(st.(clarification := Some(question),
                     events := st.events + [Entry("System", "Waiting for user input: " + ToString(question), "pending")]))
    else Returned(st)
  }

  /** `eventSource.onmessage` for one parsed message: `const { type, data } = parsedData`,
      which throws on `null`, then the branch for the type. A handler that throws yields
      the error instead of a state. */
  function Reduce(st: UiState, message: Value): (r: Outcome<UiState>)
    ensures message.Null? || message.Undefined? ==> r == Threw(DestructureError)
    ensures r.Returned? ==> r.value.answer == st.answer
  {
    if message.Null? || message.Undefined? then Threw(DestructureError)
    else Apply(st, Prop(message, "type").value, Prop(message, "data").value)
  }

  /** Every contention is an object and no two of them have strictly equal ids. */
  predicate DistinctIds(cs: seq<Value>)
  {
    (forall i :: 0 <= i < |cs| ==> cs[i].Obj?)
    && forall i, j :: 0 <= i < j < |cs| ==> !Matches(cs[i], cs[j])
  }

  /** `===` on an id that equals one value and differs from another tells the two apart. */
  lemma StrictEqualsSeparates(x: Value, y: Value, z: Value)
    requires StrictEquals(x, y) && !StrictEquals(y, z)
    ensures !StrictEquals(x, z) && !StrictEquals(z, x)
  {
  }

  /** The contention update keeps ids distinct: a known id replaces its entry, an unknown
      one is appended, so the list never holds one id twice. */
  lemma {:induction false} UpsertKeepsIdsDistinct(cs: seq<Value>, data: Value)
    requires DistinctIds(cs) && data.Obj?
    ensures Upsert(cs, data).Returned? && DistinctIds(Upsert(cs, data).value)
    ensures |Upsert(cs, data).value| == |cs| || Upsert(cs, data).value == cs + [data]
  {
    var idx := FindContention(cs, data, 0).value;
    var r := Upsert(cs, data).value;
    forall i, j | 0 <= i < j < |r| ensures !Matches(r[i], r[j]) {
      var di := Get(r[i].fields, "id");
      var dj := Get(r[j].fields, "id");
      var d := Get(data.fields, "id");
      if idx >= 0 {
        var old_ := Get(cs[idx].fields, "id");
        assert StrictEquals(old_, d);
        if i == idx {
          assert !StrictEquals(old_, dj) by { assert !Matches(cs[idx], cs[j]); }
          StrictEqualsSeparates(d, old_, dj);
        } else if j == idx {
          assert !StrictEquals(di, old_) by { assert !Matches(cs[i], cs[idx]); }
          StrictEqualsSeparates(old_, d, di);
        } else {
          assert !Matches(cs[i], cs[j]);
        }
      } else if j == |cs| {
        assert !Matches(cs[i], data);
      } else {
        assert !Matches(cs[i], cs[j]);
      }
    }
  }

  /** Whatever the state, the completion event of a run marks the view complete and hands
      its blueprint to the parent. */
  lemma CompletionCompletes(st: UiState, e: Event, stringify: Value -> string)
    requires e.Completion?
    ensures var r := Reduce(st, Wire(e, stringify));
      r.Returned? && r.value.isComplete && r.value.handedOver == Some(Prop(Wire(e, stringify), "data").value)
      && r.value.events == st.events && r.value.contentions == st.contentions
  {
    var w := Wire(e, stringify);
    assert Prop(w, "type") == Returned(Str("completion"));
  }

  /** A timeline event of a run adds exactly one timeline entry. */
  lemma TimelineEventLogged(st: UiState, e: Event, stringify: Value -> string)
    requires e.Timeline?
    ensures var r := Reduce(st, Wire(e, stringify));
      r.Returned? && r.value.events == st.events + [Prop(Wire(e, stringify), "data").value]
      && r.value.artifacts == st.artifacts && !r.value.isComplete == !st.isComplete
  {
    var w := Wire(e, stringify);
    assert Prop(w, "type") == Returned(Str("timeline_event"));
  }

  /** `handleReply`: an answer that is empty once trimmed sends nothing; otherwise the
      answer is posted, and when the request goes through the question and the typed answer
      are cleared (a failed request leaves both). `sent` is the answer posted, if any. */
  function HandleReply(st: UiState, delivered: bool): (r: (UiState, Option<string>))
    ensures Trim(st.answer) == "" ==> r == (st, None)
    ensures Trim(st.answer) != "" ==> r.1 == Some(st.answer) && st.answer != ""
    ensures Trim(st.answer) != "" && delivered ==> r.0 == st.(clarification := None, answer := "")
    ensures Trim(st.answer) != "" && !delivered ==> r.0 == st
  {
    if Trim(st.answer) == "" then (st, None)
    else if delivered then (st.(clarification := None, answer := ""), Some(st.answer))
    else (st, Some(st.answer))
  }
}
