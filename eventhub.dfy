/** The event hub of the backend server (backend/server.js): the bounded replay history, the
    list of open event streams, the last command kept for clarification replies, and the
    `/stream`, `/start` and `/reply` handlers. The HTTP and server-sent-event transport is
    abstracted: what a stream receives is the sequence of message objects written to it. */
module EventHub {
  import opened Js
  import opened Events
  import opened Orchestration

  /** How many events the replay history keeps. */
  const HistoryLimit: nat := 100

  /** The last `n` elements of `s`, or all of `s` when it is shorter. */
  function LastN<T>(s: seq<T>, n: nat): (r: seq<T>)
    ensures |r| == if |s| < n then |s| else n
    ensures r == s[|s| - |r|..]
  {
    if |s| <= n then s else s[|s| - n..]
  }

  /** One `push` and at most one `shift` keep the history equal to the last `n` events: the
      invariant of `broadcast`. */
  lemma {:induction false} LastNStep<T>(s: seq<T>, x: T, n: nat)
    requires n > 0
    ensures var h := LastN(s, n) + [x];
      LastN(s + [x], n) == if |h| > n then h[1..] else h
  {
    var h := LastN(s, n) + [x];
    if |s| < n {
      assert LastN(s, n) == s;
    } else {
      assert LastN(s, n) == s[|s| - n..];
      assert |h| == n + 1;
      assert h[1..] == (s + [x])[|s| + 1 - n..];
    }
  }

  /** The message every new stream receives first. */
  function Connected(stringify: Value -> string): Value
  {
    Message(Timeline("System", "Connected to AI Brain", Accepted), stringify)
  }

  /** The messages of a run's events, in emission order. */
  function Messages(es: seq<Event>, stringify: Value -> string): (ms: seq<Value>)
    ensures |ms| == |es| && forall i :: 0 <= i < |es| ==> ms[i] == Message(es[i], stringify)
  {
    seq(|es|, i requires 0 <= i < |es| => Message(es[i], stringify))
  }

  /** An open event stream: the client's id (the connection time) and what it has received. */
  datatype Stream = Stream(id: int, written: seq<Value>)

  /** Every stream of `before` has received `ms`, in order; the list itself is unchanged. */
  ghost predicate Delivered(before: seq<Stream>, after: seq<Stream>, ms: seq<Value>)
  {
    |after| == |before|
    && forall i :: 0 <= i < |before| ==> after[i] == before[i].(written := before[i].written + ms)
  }

  /** Two deliveries in a row deliver both batches, in order. */
  lemma DeliveredTwice(a: seq<Stream>, b: seq<Stream>, c: seq<Stream>, m1: seq<Value>, m2: seq<Value>)
    requires Delivered(a, b, m1) && Delivered(b, c, m2)
    ensures Delivered(a, c, m1 + m2)
  {
    forall i | 0 <= i < |a| ensures c[i] == a[i].(written := a[i].written + (m1 + m2)) {
      assert a[i].written + m1 + m2 == a[i].written + (m1 + m2);
    }
  }

  /** `clients.filter(client => client.id !== id)` */
  function Without(cs: seq<Stream>, id: int): (r: seq<Stream>)
    ensures forall s :: s in r <==> s in cs && s.id != id
    ensures |r| <= |cs|
  {
    if cs == [] then []
    else (if cs[0].id != id then [cs[0]] else []) + Without(cs[1..], id)
  }

  /** Filtering distributes over concatenation, so the streams it keeps stay in their order. */
  lemma {:induction false} WithoutAppend(a: seq<Stream>, b: seq<Stream>, id: int)
    ensures Without(a + b, id) == Without(a, id) + Without(b, id)
  {
    if a != [] {
      assert (a + b)[0] == a[0] && (a + b)[1..] == a[1..] + b;
      WithoutAppend(a[1..], b, id);
      var head := if a[0].id != id then [a[0]] else [];
      assert Without(a + b, id) == head + (Without(a[1..], id) + Without(b, id));
      assert Without(a, id) == head + Without(a[1..], id);
      assert head + (Without(a[1..], id) + Without(b, id)) == (head + Without(a[1..], id)) + Without(b, id);
    } else {
      assert a + b == b;
    }
  }

  /** Closing a stream that no other stream shares an id with leaves every other stream. */
  lemma {:induction false} WithoutAbsent(cs: seq<Stream>, id: int)
    requires forall i :: 0 <= i < |cs| ==> cs[i].id != id
    ensures Without(cs, id) == cs
  {
    if cs != [] {
      WithoutAbsent(cs[1..], id);
    }
  }

  /** The command a clarification answer resumes with. */
  function ResumeCommand(last: string, answer: string): (r: string)
    ensures last <= r && r[|last|..] == ". Additional Context: " + answer
  {
    last + ". Additional Context: " + answer
  }

  /** Answers given one after another accumulate, in order, after the original command. */
  function ResumeAll(command: string, answers: seq<string>): (r: string)
    ensures command <= r
    decreases |answers|
  {
    if answers == [] then command
    else ResumeAll(ResumeCommand(command, answers[0]), answers[1..])
  }

  lemma {:induction false} ResumeAllLast(command: string, answers: seq<string>, answer: string)
    ensures ResumeAll(command, answers + [answer]) == ResumeCommand(ResumeAll(command, answers), answer)
    decreases |answers|
  {
    if answers != [] {
      assert (answers + [answer])[1..] == answers[1..] + [answer];
      ResumeAllLast(ResumeCommand(command, answers[0]), answers[1..], answer);
    }
  }

  /** The messages `/reply` broadcasts before the resumed run. */
  function ReplyMessages(answer: string, stringify: Value -> string): seq<Value>
  {
    [Message(Timeline("User", "Replied: " + answer, Accepted), stringify),
     Message(Timeline("System", "Resuming simulation with new context...", Pending), stringify)]
  }

  /** What a handler answers: a 400 with its text, or the JSON status of a run it started. */
  datatype Response = BadRequest(text: string) | Started | Resumed

  class Hub {
    /** The one orchestrator the server creates. */
    const orchestrator: Orchestrator
    /** `JSON.stringify(x, null, 2)`, used for artifact contents. */
    const stringify: Value -> string
    var streams: seq<Stream>
    var history: seq<Value>
    var lastCommand: string
    /** Every message broadcast since the history was last emptied. */
    ghost var sinceReset: seq<Value>

    /** The history holds the last hundred messages broadcast since the last reset. */
    ghost predicate Valid()
      reads this
    {
      history == LastN(sinceReset, HistoryLimit)
    }

    constructor (orchestrator: Orchestrator, stringify: Value -> string)
      ensures Valid() && this.orchestrator == orchestrator && this.stringify == stringify
      ensures streams == [] && history == [] && lastCommand == "" && sinceReset == []
    {
      this.orchestrator := orchestrator;
      this.stringify := stringify;
      streams := [];
      history := [];
      lastCommand := "";
      sinceReset := [];
      assert LastN<Value>([], HistoryLimit) == [];
    }

    /** `broadcast(data)`: the history takes the message and drops its oldest entry when over
        the limit; then every open stream is written the message, in list order. */
    method Broadcast(data: Value)
      requires Valid()
      modifies this
      ensures Valid() && sinceReset == old(sinceReset) + [data] && |history| <= HistoryLimit
      ensures lastCommand == old(lastCommand)
      ensures Delivered(old(streams), streams, [data])
    {
      LastNStep(sinceReset, data, HistoryLimit);
      sinceReset := sinceReset + [data];
      history := history + [data];
      if |history| > HistoryLimit {
        history := history[1..];
      }
      var i := 0;
      while i < |streams|
        invariant Valid() && sinceReset == old(sinceReset) + [data] && |history| <= HistoryLimit
        invariant lastCommand == old(lastCommand)
        invariant 0 <= i <= |streams| && |streams| == |old(streams)|
        invariant forall j :: 0 <= j < i ==> streams[j] == old(streams)[j].(written := old(streams)[j].written + [data])
        invariant forall j :: i <= j < |streams| ==> streams[j] == old(streams)[j]
      {
        streams := streams[i := streams[i].(written := streams[i].written + [data])];
        i := i + 1;
      }
    }

    /** The orchestrator's event callback over a whole run: each event is broadcast, in order. */
    method BroadcastAll(events: seq<Event>)
      requires Valid()
      modifies this
      ensures Valid() && sinceReset == old(sinceReset) + Messages(events, stringify)
      ensures lastCommand == old(lastCommand)
      ensures Delivered(old(streams), streams, Messages(events, stringify))
    {
      var i := 0;
      while i < |events|
        invariant 0 <= i <= |events| && Valid()
        invariant sinceReset == old(sinceReset) + Messages(events[..i], stringify)
        invariant lastCommand == old(lastCommand)
        invariant Delivered(old(streams), streams, Messages(events[..i], stringify))
      {
        ghost var before := streams;
        Broadcast(Message(events[i], stringify));
        assert Messages(events[..i + 1], stringify) == Messages(events[..i], stringify) + [Message(events[i], stringify)];
        DeliveredTwice(old(streams), before, streams, Messages(events[..i], stringify), [Message(events[i], stringify)]);
        i := i + 1;
      }
      assert events[..i] == events;
    }

    /** `GET /stream`: the new stream joins the list and is written the connection message,
        then the whole history in order. */
    method Subscribe(id: int)
      modifies this
      ensures streams == old(streams) + [Stream(id, [Connected(stringify)] + history)]
      ensures history == old(history) && sinceReset == old(sinceReset) && lastCommand == old(lastCommand)
    {
      var written := [Connected(stringify)];
      var i := 0;
      while i < |history|
        invariant 0 <= i <= |history|
        invariant written == [Connected(stringify)] + history[..i]
      {
        written := written + [history[i]];
        i := i + 1;
      }
      assert history[..i] == history;
      streams := streams + [Stream(id, written)];
    }

    /** The stream's `close` handler: every stream with that id leaves the list. */
    method Close(id: int)
      modifies this
      ensures streams == Without(old(streams), id)
      ensures history == old(history) && sinceReset == old(sinceReset) && lastCommand == old(lastCommand)
    {
      streams := Without(streams, id);
    }

    /** `POST /start`: a missing command is refused and nothing changes; otherwise the
        history is emptied, the command is kept for replies and the run's events are
        broadcast as they are emitted. */
    method Start(command: string, role: string, images: seq<Value>, now: nat) returns (response: Response)
      requires Valid()
      modifies this, orchestrator
      ensures Valid()
      ensures command == "" ==> response == BadRequest("Command is required") && unchanged(this, orchestrator)
      ensures command != "" ==>
        (response == Started && lastCommand == command
         && sinceReset == Messages(orchestrator.emitted, stringify)
         && Delivered(old(streams), streams, Messages(orchestrator.emitted, stringify))
         && orchestrator.memory.userIntent == ActiveCommand(command, role) && orchestrator.memory.images == images)
    {
      if command == "" {
        return BadRequest("Command is required");
      }
      Launch(command, role, images, now);
      response := Started;
    }

    /** The accepted branch of `POST /start`: the history is emptied, the command kept, and
        the run's events are broadcast in the order it emits them. */
    method Launch(command: string, role: string, images: seq<Value>, now: nat)
      requires Valid()
      modifies this, orchestrator
      ensures Valid() && lastCommand == command
      ensures sinceReset == Messages(orchestrator.emitted, stringify)
      ensures Delivered(old(streams), streams, Messages(orchestrator.emitted, stringify))
      ensures orchestrator.memory.userIntent == ActiveCommand(command, role) && orchestrator.memory.images == images
    {
      history := [];
      sinceReset := [];
      lastCommand := command;
      assert Valid() by { assert LastN(sinceReset, HistoryLimit) == []; }
      RunBroadcasting(command, role, images, now);
      assert [] + Messages(orchestrator.emitted, stringify) == Messages(orchestrator.emitted, stringify);
    }

    /** `orchestrator.run(command, broadcast, {role, images})`: the run's events are
        broadcast in the order it emits them, and its memory holds the command and images. */
    method RunBroadcasting(command: string, role: string, images: seq<Value>, now: nat)
      requires Valid()
      modifies this, orchestrator
      ensures Valid() && lastCommand == old(lastCommand)
      ensures sinceReset == old(sinceReset) + Messages(orchestrator.emitted, stringify)
      ensures Delivered(old(streams), streams, Messages(orchestrator.emitted, stringify))
      ensures orchestrator.memory.userIntent == ActiveCommand(command, role) && orchestrator.memory.images == images
    {
      ghost var before := streams;
      ghost var history0 := sinceReset;
      var result := orchestrator.Run(command, role, images, now);
      assert streams == before && sinceReset == history0 && lastCommand == old(lastCommand);
      var events := orchestrator.emitted;
      ghost var memory := orchestrator.memory;
      ghost var intent := memory.userIntent;
      ghost var imgs := memory.images;
      assert intent == ActiveCommand(command, role) && imgs == images;
      BroadcastAll(events);
      assert orchestrator.emitted == events && orchestrator.memory == memory;
      assert memory.userIntent == intent && memory.images == imgs;
    }

    /** `POST /reply`: a missing answer, or no command to resume, is refused and nothing
        changes; otherwise the answer is appended to the kept command, the history is kept,
        the reply and the resumption are announced and the combined command runs without
        a role or images. */
    method Reply(answer: string, now: nat) returns (response: Response)
      requires Valid()
      modifies this, orchestrator
      ensures Valid()
      ensures answer == "" ==> response == BadRequest("Answer is required") && unchanged(this, orchestrator)
      ensures answer != "" && old(lastCommand) == "" ==>
        response == BadRequest("No active session found. Please restart.") && unchanged(this, orchestrator)
      ensures answer != "" && old(lastCommand) != "" ==>
        (response == Resumed && lastCommand == ResumeCommand(old(lastCommand), answer)
         && sinceReset == old(sinceReset) + ReplyMessages(answer, stringify) + Messages(orchestrator.emitted, stringify)
         && Delivered(old(streams), streams, ReplyMessages(answer, stringify) + Messages(orchestrator.emitted, stringify))
         && orchestrator.memory.userIntent == lastCommand && orchestrator.memory.images == [])
    {
      if answer == "" {
        return BadRequest("Answer is required");
      }
      if lastCommand == "" {
        return BadRequest("No active session found. Please restart.");
      }
      Resume(answer, now);
      response := Resumed;
    }

    /** The two timeline messages `POST /reply` broadcasts before the run resumes. */
    method AnnounceReply(answer: string)
      requires Valid()
      modifies this
      ensures Valid() && lastCommand == old(lastCommand)
      ensures sinceReset == old(sinceReset) + ReplyMessages(answer, stringify)
      ensures Delivered(old(streams), streams, ReplyMessages(answer, stringify))
    {
      var announced := ReplyMessages(answer, stringify);
      Broadcast(announced[0]);
      ghost var s1 := streams;
      Broadcast(announced[1]);
      DeliveredTwice(old(streams), s1, streams, [announced[0]], [announced[1]]);
      assert [announced[0]] + [announced[1]] == announced;
    }

    /** The accepted branch of `POST /reply`: the answer joins the kept command, the reply and
        the resumption are announced, and the combined command runs without a role or images,
        its events broadcast in order. */
    method Resume(answer: string, now: nat)
      requires Valid() && lastCommand != ""
      modifies this, orchestrator
      ensures Valid() && lastCommand == ResumeCommand(old(lastCommand), answer)
      ensures sinceReset == old(sinceReset) + ReplyMessages(answer, stringify) + Messages(orchestrator.emitted, stringify)
      ensures Delivered(old(streams), streams, ReplyMessages(answer, stringify) + Messages(orchestrator.emitted, stringify))
      ensures orchestrator.memory.userIntent == lastCommand && orchestrator.memory.images == []
    {
      lastCommand := ResumeCommand(lastCommand, answer);
      ghost var s0 := streams;
      var announced := ReplyMessages(answer, stringify);
      AnnounceReply(answer);
      ghost var s2 := streams;
      RunBroadcasting(lastCommand, "", [], now);
      DeliveredTwice(s0, s2, streams, announced, Messages(orchestrator.emitted, stringify));
    }
  }
}
