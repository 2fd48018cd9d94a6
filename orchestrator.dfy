/** The run of one founding simulation (backend/src/core/Orchestrator.js): intent analysis,
    the optional plan, the operate-mode agents, the Strategy/Operations/Finance debate (or
    the linear fallback), the fan-out to the execution agents joined all-or-nothing, the
    local preview site, the synthesis and the catch-all error path. Every event the run
    emits is appended to `emitted`. What each agent gives back is a parameter: `roster(i)`
    is the completion of the i-th agent call the orchestrator makes. */
module Orchestration {
  import opened Js
  import opened Events
  import opened SharedMemory
  import opened LocalSite

  type Roster = nat -> Outcome<Value>

  /** `hasAgent(id)`: the agent is listed by name or through the `'all'` wildcard. */
  predicate HasAgent(active: seq<Value>, id: string)
  {
    ArrayIncludes(active, id) || ArrayIncludes(active, "all")
  }

  /** Strategy, Operations and Finance are all selected. */
  predicate IsDebateMode(active: seq<Value>)
  {
    HasAgent(active, "strategy") && HasAgent(active, "ops") && HasAgent(active, "finance")
  }

  /** The synthesis test reads the list itself, not `hasAgent`: the name must be listed
      literally, or more than three entries must be listed. */
  predicate ShouldSynthesize(active: seq<Value>)
  {
    ArrayIncludes(active, "synthesis") || |active| > 3
  }

  /** The wildcard alone selects every agent and the debate, and still skips synthesis. */
  lemma WildcardAlone()
    ensures forall id :: HasAgent([Str("all")], id)
    ensures IsDebateMode([Str("all")]) && !ShouldSynthesize([Str("all")])
  {
  }

  const MaxRevisions: nat := 2
  /** `state.business_profile?.name || "Founding AI Project"`: the memory snapshot never has
      a business profile, so the fallback is always taken. */
  const ProjectName := "Founding AI Project"

  /** The intent stored in memory: the role, when there is one, prefixes the command. */
  function ActiveCommand(command: string, role: string): (r: string)
    ensures role == "" ==> r == command
    ensures role != "" ==> r == "[Role: " + role + "] " + command
  {
    if role != "" then "[Role: " + role + "] " + command else command
  }

  /** The error `intent.required_agents.join(', ')` raises when the list is not an array. */
  function JoinError(v: Value): string
  {
    if v.Undefined? || v.Null? then ReadError(v, "join") else "intent.required_agents.join is not a function"
  }

  /** `intent.required_agents`, which the run uses as an array. */
  function RequiredAgents(intent: Value): (r: Outcome<seq<Value>>)
    requires !intent.Undefined? && !intent.Null?
    ensures r.Returned? <==> Prop(intent, "required_agents").value.Arr?
    ensures r.Returned? ==> r.value == Prop(intent, "required_agents").value.items
  {
    var v := Prop(intent, "required_agents").value;
    if v.Arr? then Returned(v.items) else Threw(JoinError(v))
  }

  /** `(await agent.run(...)).key`: the call's error, the error of reading from a null or
      undefined result, or the entry. */
  function Field(o: Outcome<Value>, key: string): (r: Outcome<Value>)
    ensures o.Threw? ==> r == Threw(o.message)
    ensures o.Returned? ==> r == Prop(o.value, key)
  {
    if o.Threw? then Threw(o.message) else Prop(o.value, key)
  }

  /** `res && res.key`, used only for its truthiness and, when truthy, its value. */
  function Member(res: Value, key: string): (v: Value)
    ensures Truthy(v) ==> Truthy(res) && Prop(res, key) == Returned(v)
  {
    if Truthy(res) then Prop(res, key).value else Undefined
  }

  /** Finance's verdict in a completed call is `decision === "PASS"`. */
  predicate Passed(finance: Outcome<Value>)
  {
    finance.Returned? && Prop(finance.value, "decision") == Returned(Str("PASS"))
  }

  /** The two events of the catch block. */
  function ErrorEvents(message: string): seq<Event>
  {
    [Timeline("System", "Critical Error: " + message, Rejected),
     Completion(Obj([("error", Str(message))]), None, true)]
  }

  /** `{ message: "Task Complete", artifacts: this.memory.artifacts }`: Memory has no
      `artifacts` property, so the entry is `undefined`. */
  const DefaultBlueprint := Obj([("message", Str("Task Complete")), ("artifacts", Undefined)])

  /** Every artifact update emitted from position `from` on carries `version`. */
  predicate Versioned(es: seq<Event>, from: nat, version: nat)
  {
    forall i :: from <= i < |es| && es[i].ArtifactUpdate? ==> es[i].version == version
  }

  lemma VersionedJoin(es: seq<Event>, more: seq<Event>, from: nat, version: nat)
    requires es <= more && from <= |es| && Versioned(es, from, version) && Versioned(more, |es|, version)
    ensures Versioned(more, from, version)
  {
  }

  /** Every artifact event from `from` on announces a version between 1 and `top`. */
  predicate VersionsWithin(es: seq<Event>, from: nat, top: nat)
  {
    forall i :: from <= i < |es| && es[i].ArtifactUpdate? ==> 1 <= es[i].version <= top
  }

  /** A round announcing only `version` keeps every version seen so far within a bound
      at least as large. */
  lemma VersionsExtend(es: seq<Event>, more: seq<Event>, from: nat, version: nat, top: nat)
    requires es <= more && from <= |es| && VersionsWithin(es, from, version)
    requires Versioned(more, |es|, version) && 1 <= version <= top
    ensures VersionsWithin(more, from, top)
  {
    forall i | from <= i < |more| && more[i].ArtifactUpdate? ensures 1 <= more[i].version <= top {
      if i < |es| {
        assert more[i] == es[i];
      }
    }
  }

  /** A rejected round extends the run of rejected rounds by one. */
  lemma RejectedExtend(roster: Roster, c0: nat, n: nat)
    requires forall r :: 0 <= r < n ==> !Passed(roster(c0 + 3 * r + 2))
    requires !Passed(roster(c0 + 3 * n + 2))
    ensures forall r :: 0 <= r < n + 1 ==> !Passed(roster(c0 + 3 * r + 2))
  {
  }

  /** What the run leaves in the memory's other fields: the intent, the images, the
      financial-check log, and a status that stays planning or revising. */
  ghost predicate Kept(before: Snapshot, after: Snapshot)
  {
    after.userIntent == before.userIntent && after.images == before.images
    && after.financialChecks == before.financialChecks
    && (before.status in {Planning, Revising} ==> after.status in {Planning, Revising})
  }

  lemma KeptTransitive(a: Snapshot, b: Snapshot, c: Snapshot)
    requires Kept(a, b) && Kept(b, c)
    ensures Kept(a, c)
  {
  }

  /** The debate's state after `revisions` rejected rounds, as values: the calls `c`, the
      events `es` and the memory `st`, against where the debate started. */
  ghost predicate Rebutted(roster: Roster, c0: seq<string>, e0: seq<Event>, s0: Snapshot, rq0: seq<RevisionRequest>,
                           revisions: nat, c: seq<string>, es: seq<Event>, st: Snapshot)
  {
    Progress(es) && e0 <= es && Kept(s0, st)
    && revisions <= MaxRevisions && c0 <= c
    && (forall r :: 0 <= r < revisions ==> !Passed(roster(|c0| + 3 * r + 2)))
    && rq0 <= st.revisionRequests && |st.revisionRequests| <= |rq0| + revisions
    && VersionsWithin(es, |e0|, revisions + 1)
  }

  /** A debate round that announced version `revisions + 1` keeps the debate's state; a
      rejected one counts as one more revision. */
  lemma RebuttedNext(roster: Roster, c0: seq<string>, e0: seq<Event>, s0: Snapshot, rq0: seq<RevisionRequest>,
                     revisions: nat, c1: seq<string>, e1: seq<Event>, s1: Snapshot,
                     c2: seq<string>, e2: seq<Event>, s2: Snapshot, rejected: bool)
    requires Rebutted(roster, c0, e0, s0, rq0, revisions, c1, e1, s1) && c1 == c0 + Rounds(revisions)
    requires Progress(e2) && e1 <= e2 && Versioned(e2, |e1|, revisions + 1) && Kept(s1, s2) && c1 <= c2
    requires s1.revisionRequests <= s2.revisionRequests
    requires |s2.revisionRequests| <= |s1.revisionRequests| + (if rejected then 1 else 0)
    requires rejected ==> revisions < MaxRevisions && !Passed(roster(|c1| + 2))
    ensures Rebutted(roster, c0, e0, s0, rq0, if rejected then revisions + 1 else revisions, c2, e2, s2)
  {
    VersionsExtend(e1, e2, |e0|, revisions + 1, if rejected then revisions + 2 else revisions + 1);
    KeptTransitive(s0, s1, s2);
    if rejected {
      RejectedExtend(roster, |c0|, revisions);
    }
  }

  // ---------------------------------------------------------------------------------
  // Which agents a step calls, and in what order.

  /** The agents of one debate round, and of the linear fallback, in the order they run. */
  const Trio := ["strategy", "ops", "finance"]
  /** The operate-mode agents, in the order they run. */
  const DailyAgents := ["daily_planner", "ops_intel", "finance_intel", "decision_advisor"]

  /** `hasAgent(id)` as a list: the agent itself when it is selected, nothing otherwise. */
  function Pick(active: seq<Value>, id: string): seq<string>
  {
    if HasAgent(active, id) then [id] else []
  }

  /** The agents of `ids` that `hasAgent` selects, in order: each selected one exactly as
      often as `ids` lists it, and no other. */
  function Chosen(active: seq<Value>, ids: seq<string>): (r: seq<string>)
    ensures |r| <= |ids|
  {
    if ids == [] then [] else Pick(active, ids[0]) + Chosen(active, ids[1..])
  }

  /** `Chosen` keeps an agent exactly as often as `ids` lists it when it is selected, and
      drops it otherwise. */
  lemma {:induction false} ChosenCount(active: seq<Value>, ids: seq<string>, id: string)
    ensures multiset(Chosen(active, ids))[id] == if HasAgent(active, id) then multiset(ids)[id] else 0
  {
    if ids != [] {
      ChosenCount(active, ids[1..], id);
      var p, rest := Pick(active, ids[0]), Chosen(active, ids[1..]);
      assert ids == [ids[0]] + ids[1..];
      assert multiset(ids)[id] == multiset([ids[0]])[id] + multiset(ids[1..])[id];
      assert multiset(p + rest)[id] == multiset(p)[id] + multiset(rest)[id];
      assert multiset(p)[id] == if HasAgent(active, id) then multiset([ids[0]])[id] else 0;
    }
  }

  /** Each of the three debate agents is selected at most once, and exactly when `hasAgent` says so. */
  lemma ChosenTrio(active: seq<Value>, id: string)
    requires id in Trio
    ensures multiset(Chosen(active, Trio))[id] == if HasAgent(active, id) then 1 else 0
  {
    ChosenCount(active, Trio, id);
    assert multiset(Trio)[id] == 1;
  }

  /** Debate mode is exactly the selection of the whole trio. */
  lemma DebateModeIsWholeTrio(active: seq<Value>)
    ensures IsDebateMode(active) <==> Chosen(active, Trio) == Trio
  {
    var rest, last := Trio[1..], Trio[2..];
    assert last == ["finance"] && last[1..] == [] && rest[0] == "ops" && rest[1..] == last;
    assert Chosen(active, last) == Pick(active, "finance") + [];
    assert Chosen(active, Trio) == Pick(active, "strategy") + (Pick(active, "ops") + Pick(active, "finance"));
  }

  /** Each operate-mode agent is called once when selected and never otherwise. */
  lemma ChosenDaily(active: seq<Value>, id: string)
    requires id in DailyAgents
    ensures multiset(Chosen(active, DailyAgents))[id] == if HasAgent(active, id) then 1 else 0
  {
    ChosenCount(active, DailyAgents, id);
    assert multiset(DailyAgents)[id] == 1;
  }

  /** Selecting from one more agent of `ids` appends that agent's pick. */
  lemma {:induction false} ChosenSnoc(active: seq<Value>, ids: seq<string>, k: nat)
    requires k < |ids|
    ensures Chosen(active, ids[..k + 1]) == Chosen(active, ids[..k]) + Pick(active, ids[k])
  {
    if k == 0 {
      assert ids[..1] == [ids[0]] && ids[..1][1..] == [] && ids[..0] == [];
    } else {
      var tail := ids[1..];
      ChosenSnoc(active, tail, k - 1);
      assert ids[..k + 1][1..] == tail[..k] && ids[..k][1..] == tail[..k - 1] && tail[k - 1] == ids[k];
      var head := Pick(active, ids[0]);
      calc {
        Chosen(active, ids[..k + 1]);
        head + Chosen(active, tail[..k]);
        head + (Chosen(active, tail[..k - 1]) + Pick(active, ids[k]));
        (head + Chosen(active, tail[..k - 1])) + Pick(active, ids[k]);
        Chosen(active, ids[..k]) + Pick(active, ids[k]);
      }
    }
  }

  /** The selection from the first `k` agents of `ids` is the start of the whole selection. */
  lemma {:induction false} ChosenPrefix(active: seq<Value>, ids: seq<string>, k: nat)
    requires k <= |ids|
    ensures Chosen(active, ids[..k]) <= Chosen(active, ids)
  {
    if k > 0 {
      ChosenPrefix(active, ids[1..], k - 1);
      assert ids[..k][1..] == ids[1..][..k - 1];
    }
  }

  /** `n` debate rounds' worth of calls. */
  function Rounds(n: nat): (r: seq<string>)
    ensures |r| == 3 * n
  {
    if n == 0 then [] else Rounds(n - 1) + Trio
  }

  /** The calls numbered `from` to `to` all completed. */
  ghost predicate AllReturned(roster: Roster, from: nat, to: nat)
  {
    forall k :: from <= k < to ==> roster(k).Returned?
  }

  /** A single completed call is a stretch of completed calls. */
  lemma OneReturned(roster: Roster, k: nat)
    requires roster(k).Returned?
    ensures AllReturned(roster, k, k + 1)
  {
  }

  /** The three calls of a debate round, all completed. */
  lemma TrioReturned(roster: Roster, c0: seq<string>)
    requires roster(|c0|).Returned? && roster(|c0| + 1).Returned? && roster(|c0| + 2).Returned?
    ensures c0 + ["strategy"] + ["ops"] + ["finance"] == c0 + Trio
    ensures AllReturned(roster, |c0|, |c0| + 3)
  {
    assert c0 + ["strategy"] + ["ops"] + ["finance"] == c0 + Trio;
  }

  /** Two adjacent stretches of completed calls make one. */
  lemma AllReturnedJoin(roster: Roster, a: nat, b: nat, c: nat)
    requires a <= b <= c && AllReturned(roster, a, b) && AllReturned(roster, b, c)
    ensures AllReturned(roster, a, c)
  {
  }

  /** Agents run one after another, each awaited before the next, from the call log `c0` to
      the call log `c`: the agents called are the first ones of `sel`, all of them when no
      error stopped the step; every call completed except, on an error, the last, which
      threw that error. */
  ghost predicate InOrder(roster: Roster, c0: seq<string>, c: seq<string>, sel: seq<string>, err: Option<string>)
  {
    c0 <= c && |c| - |c0| <= |sel| && c[|c0|..] == sel[..|c| - |c0|]
    && (err.None? ==> |c| - |c0| == |sel| && AllReturned(roster, |c0|, |c|))
    && (err.Some? ==> |c0| < |c| && roster(|c| - 1) == Threw(err.value) && AllReturned(roster, |c0|, |c| - 1))
  }

  /** One more agent of a sequential step: skipped when not selected; otherwise called, and
      its failure stops the step. */
  lemma InOrderAdvance(roster: Roster, active: seq<Value>, c0: seq<string>, c: seq<string>, next: seq<string>,
                       sel: seq<string>, id: string, err: Option<string>)
    requires InOrder(roster, c0, c, sel, None)
    requires !HasAgent(active, id) ==> next == c && err.None?
    requires HasAgent(active, id) ==>
      next == c + [id] && (err.Some? <==> roster(|c|).Threw?) && (err.Some? ==> err.value == roster(|c|).message)
    ensures InOrder(roster, c0, next, sel + Pick(active, id), err)
  {
    var s := sel + Pick(active, id);
    assert s[..|sel|] == sel;
    if HasAgent(active, id) {
      assert next[|c0|..] == c[|c0|..] + [id];
      assert s[..|sel| + 1] == sel + [id];
    }
  }

  /** A step that stopped on an error at the `k`-th agent of `ids` calls none of the agents
      that come after. */
  lemma InOrderStop(roster: Roster, active: seq<Value>, c0: seq<string>, c: seq<string>, ids: seq<string>, k: nat,
                    err: Option<string>)
    requires k <= |ids| && err.Some? && InOrder(roster, c0, c, Chosen(active, ids[..k]), err)
    ensures InOrder(roster, c0, c, Chosen(active, ids), err)
  {
    ChosenPrefix(active, ids, k);
    var sel, all := Chosen(active, ids[..k]), Chosen(active, ids);
    assert all[..|c| - |c0|] == sel[..|c| - |c0|];
  }

  // ---------------------------------------------------------------------------------
  // The fan-out join and the merge of its results, as a specification.

  /** The agents the execution phase calls, in the order their calls are issued. */
  function Enlisted(active: seq<Value>, hasImages: bool): seq<string>
  {
    Pick(active, "design") + Pick(active, "marketing") + Pick(active, "tech") + (if hasImages then ["renovation"] else [])
  }

  /** One agent is enlisted per condition that holds. */
  lemma EnlistedCount(active: seq<Value>, hasImages: bool)
    ensures |Enlisted(active, hasImages)| ==
      (if HasAgent(active, "design") then 1 else 0) + (if HasAgent(active, "marketing") then 1 else 0)
      + (if HasAgent(active, "tech") then 1 else 0) + (if hasImages then 1 else 0)
  {
  }

  /** The pending events emitted once the execution calls are issued (renovation has none). */
  function FanOutPending(active: seq<Value>): (es: seq<Event>)
    ensures Progress(es)
  {
    (if HasAgent(active, "design") then [Timeline("Design Agent", "Designing Brand Identity", Pending)] else [])
    + (if HasAgent(active, "marketing") then [Timeline("Marketing Agent", "Planning Launch", Pending)] else [])
    + (if HasAgent(active, "tech") then [Timeline("Tech Agent", "Generating Tech Stack", Pending)] else [])
  }

  /** The completions of `n` agent calls starting at call number `from`. */
  function Outcomes(roster: Roster, from: nat, n: nat): (os: seq<Outcome<Value>>)
    ensures |os| == n
  {
    if n == 0 then [] else Outcomes(roster, from, n - 1) + [roster(from + n - 1)]
  }

  /** The `i`-th of the collected completions is the answer to call number `from + i`. */
  lemma {:induction false} OutcomesAt(roster: Roster, from: nat, n: nat)
    ensures forall i :: 0 <= i < n ==> Outcomes(roster, from, n)[i] == roster(from + i)
  {
    if n > 0 {
      OutcomesAt(roster, from, n - 1);
    }
  }

  /** `Promise.all`: the message of the first failed call, in the order the calls were issued. */
  function FirstFailure(os: seq<Outcome<Value>>): Option<string>
  {
    if os == [] then None
    else if os[0].Threw? then Some(os[0].message)
    else FirstFailure(os[1..])
  }

  /** There is no failure exactly when every call completed; a failure is the error of a
      call that every earlier call completed before. */
  lemma {:induction false} FirstFailureSpec(os: seq<Outcome<Value>>)
    ensures FirstFailure(os).None? <==> forall i :: 0 <= i < |os| ==> os[i].Returned?
    ensures FirstFailure(os).Some? ==>
      exists i :: 0 <= i < |os| && os[i] == Threw(FirstFailure(os).value) && forall j :: 0 <= j < i ==> os[j].Returned?
  {
    if os != [] {
      if os[0].Threw? {
        assert os[0] == Threw(os[0].message);
      } else {
        FirstFailureSpec(os[1..]);
        var r := FirstFailure(os[1..]);
        if r.Some? {
          var i :| 0 <= i < |os[1..]| && os[1..][i] == Threw(r.value) && forall j :: 0 <= j < i ==> os[1..][j].Returned?;
          assert os[i + 1] == Threw(r.value);
          assert forall j :: 0 <= j < i + 1 ==> os[j].Returned? by {
            forall j | 0 <= j < i + 1
              ensures os[j].Returned?
            {
              if j > 0 {
                assert os[j] == os[1..][j - 1];
              }
            }
          }
        } else {
          assert forall i :: 0 <= i < |os| ==> os[i].Returned? by {
            forall i | 0 <= i < |os|
              ensures os[i].Returned?
            {
              if i > 0 {
                assert os[i] == os[1..][i - 1];
              }
            }
          }
        }
      }
    }
  }

  /** Calls whose collected completions hold no failure all completed. */
  lemma NoFailureAllReturned(roster: Roster, from: nat, n: nat)
    requires FirstFailure(Outcomes(roster, from, n)).None?
    ensures AllReturned(roster, from, from + n)
  {
    var os := Outcomes(roster, from, n);
    FirstFailureSpec(os);
    OutcomesAt(roster, from, n);
    forall k | from <= k < from + n
      ensures roster(k).Returned?
    {
      assert os[k - from] == roster(k);
    }
  }

  function Values(os: seq<Outcome<Value>>): (vs: seq<Value>)
    requires forall i :: 0 <= i < |os| ==> os[i].Returned?
    ensures |vs| == |os| && forall i :: 0 <= i < |os| ==> vs[i] == os[i].value
  {
    if os == [] then [] else [os[0].value] + Values(os[1..])
  }

  /** What the merge of the results has produced so far: the agent outputs, the events and
      the preview address. */
  datatype FanIn = FanIn(outputs: map<string, map<string, Value>>, events: seq<Event>, preview: Option<string>)

  /** `generateLocalSite` as the merge sees it: the site for a tech artifact, or nothing. */
  type SiteGen = Value -> Option<Site>

  /** Where one kind of result is stored and how it is announced. */
  datatype Slot = Slot(key: string, agent: string, slot: string, id: string, title: string, who: string, action: string)

  const DesignSlot := Slot("design", "DesignAgent", "design", "design", "Brand Identity", "Design Agent", "Brand Identity Created")
  const MarketingSlot := Slot("marketing", "MarketingAgent", "marketing", "marketing", "Go-To-Market Plan", "Marketing Agent", "Launch Plan Ready")
  const RenovationSlot := Slot("renovation_plan", "RenovationAgent", "renovation", "renovation", "Renovation & Visual Upgrade", "Renovation Agent", "Visual Upgrade Planned")

  /** `saveArtifact(agent, key, v)` followed by the events that announce it. */
  function Record(st: FanIn, agent: string, key: string, v: Value, announced: seq<Event>): (r: FanIn)
    requires Progress(announced)
    ensures r.outputs == Store(st.outputs, agent, key, v) && r.events == st.events + announced && r.preview == st.preview
    ensures Progress(st.events) ==> Progress(r.events)
    ensures forall a :: a != agent ==> SameEntry(r.outputs, st.outputs, a)
  {
    st.(outputs := Store(st.outputs, agent, key, v), events := st.events + announced)
  }

  /** `if (res && res[key]) { saveArtifact(...); emit artifact; emit accepted }` */
  function AbsorbSlot(st: FanIn, res: Value, s: Slot): (r: FanIn)
    ensures st.events <= r.events && (Progress(st.events) ==> Progress(r.events)) && r.preview == st.preview
    ensures forall a :: a != s.agent ==> SameEntry(r.outputs, st.outputs, a)
    ensures Truthy(Member(res, s.key)) ==>
      (s.agent in r.outputs && s.slot in r.outputs[s.agent] && r.outputs[s.agent][s.slot] == Member(res, s.key))
    ensures !Truthy(Member(res, s.key)) ==> r == st
  {
    var v := Member(res, s.key);
    if Truthy(v) then Record(st, s.agent, s.slot, v, [ArtifactUpdate(s.id, s.title, v, 1, true), Timeline(s.who, s.action, Accepted)])
    else st
  }

  /** `techData.preview_url = url`: objects take the entry; on an array the named property
      is invisible to JSON; on a primitive the module's strict mode makes it a TypeError. */
  function WithPreviewUrl(tech: Value, url: string): (r: Outcome<Value>)
    ensures tech.Obj? ==> r.Returned? && r.value.Obj? && Get(r.value.fields, "preview_url") == Str(url)
    ensures tech.Arr? ==> r == Returned(tech)
    ensures !tech.Obj? && !tech.Arr? ==> r.Threw?
  {
    match tech
    case Obj(fields) => Returned(Obj(Set(fields, "preview_url", Str(url))))
    case Arr(_) => Returned(tech)
    case _ => Threw("Cannot create property 'preview_url' on a primitive value")
  }

  /** The tech branch: store and announce the artifact, then try to publish the preview; the
      artifact stored in memory is the same object, so it gains `preview_url` too. */
  function AbsorbTech(st: FanIn, res: Value, site: SiteGen): (r: FanIn)
    ensures st.events <= r.events && (Progress(st.events) ==> Progress(r.events))
    ensures var t := Member(res, "tech");
      Truthy(t) ==>
        ("TechAgent" in r.outputs && "tech" in r.outputs["TechAgent"]
         && r.outputs["TechAgent"]["tech"] == Stored(t, site)
         && r.preview == (if Publish(t, site).Some? then Some(Publish(t, site).value.0) else st.preview))
    ensures !Truthy(Member(res, "tech")) ==> r == st
    ensures r.preview != st.preview ==>
      (site(Member(res, "tech")).Some? && r.preview == Some(site(Member(res, "tech")).value.url))
    ensures forall a :: a != "TechAgent" ==> SameEntry(r.outputs, st.outputs, a)
  {
    var t := Member(res, "tech");
    if !Truthy(t) then st
    else
      var saved := Record(st, "TechAgent", "tech", t,
        [ArtifactUpdate("tech", "Technical Architecture", t, 1, true), Timeline("Tech Agent", "Tech Stack Defined", Accepted)]);
      var p := Publish(t, site);
      if p.None? then saved else Published(saved, p.value.0, p.value.1)
  }

  /** The tech artifact as the merge leaves it in memory: the one carrying `preview_url`
      when the preview was published, the agent's own otherwise. */
  function Stored(t: Value, site: SiteGen): (r: Value)
    ensures Publish(t, site).None? ==> r == t
    ensures Publish(t, site).Some? ==>
      t.Obj? ==> r.Obj? && Get(r.fields, "preview_url") == Str(site(t).value.url)
  {
    var p := Publish(t, site);
    if p.Some? then p.value.1 else t
  }

  /** The published tech artifact stored again as version 2, the site announced, and its
      address kept as the preview. */
  function Published(st: FanIn, url: string, tech: Value): (r: FanIn)
    ensures r.outputs == Store(st.outputs, "TechAgent", "tech", tech) && r.preview == Some(url)
    ensures r.events == st.events + [ArtifactUpdate("tech", "Technical Architecture", tech, 2, true),
      Timeline("System", "Website Live at " + url, Accepted)]
  {
    var announced := [ArtifactUpdate("tech", "Technical Architecture", tech, 2, true),
      Timeline("System", "Website Live at " + url, Accepted)];
    assert Progress(announced);
    Record(st, "TechAgent", "tech", tech, announced).(preview := Some(url))
  }

  /** The preview's address and the tech artifact carrying it, when the site is written and
      the artifact takes the address. */
  function Publish(t: Value, site: SiteGen): (r: Option<(string, Value)>)
    ensures r.Some? <==> site(t).Some? && WithPreviewUrl(t, site(t).value.url).Returned?
    ensures r.Some? ==> r.value.0 == site(t).value.url && WithPreviewUrl(t, r.value.0) == Returned(r.value.1)
  {
    var s := site(t);
    if s.None? then None
    else
      var published := WithPreviewUrl(t, s.value.url);
      if published.Threw? then None else Some((s.value.url, published.value))
  }

  /** One pass of the `results.forEach` body: design, marketing, tech, renovation. */
  function Absorb(st: FanIn, res: Value, site: SiteGen): (r: FanIn)
    ensures st.events <= r.events && (Progress(st.events) ==> Progress(r.events))
    ensures r.preview != st.preview ==>
      (site(Member(res, "tech")).Some? && r.preview == Some(site(Member(res, "tech")).value.url))
  {
    AbsorbSlot(AbsorbTech(AbsorbSlot(AbsorbSlot(st, res, DesignSlot), res, MarketingSlot), res, site), res, RenovationSlot)
  }

  /** The merge of the results, in array order. */
  function AbsorbAll(st: FanIn, results: seq<Value>, site: SiteGen): FanIn
    decreases |results|
  {
    if results == [] then st
    else Absorb(AbsorbAll(st, results[..|results| - 1], site), results[|results| - 1], site)
  }

  /** What the execution phase leaves behind, given the outcomes `os` of its calls: nothing
      new when no agent is enlisted; on a failed call the pending events `pending` and the
      first error, with nothing merged; otherwise every result merged, in call order, into
      the state the pending events left. */
  ghost predicate Joined(os: seq<Outcome<Value>>, err: Option<string>, before: FanIn, pending: seq<Event>,
                         site: SiteGen, after: FanIn)
  {
    (os == [] ==> err.None? && after == before)
    && (os != [] ==> err == FirstFailure(os))
    && (os != [] && err.Some? ==> after == before.(events := before.events + pending))
    && (os != [] && err.None? ==>
          (FirstFailureSpec(os);
           AbsorbAll(before.(events := before.events + pending), Values(os), site) == after))
  }

  /** The last result, in array order, that carries a truthy `key`. */
  function LastMember(results: seq<Value>, key: string): (r: Option<Value>)
    ensures r.Some? ==> Truthy(r.value)
  {
    if results == [] then None
    else if Truthy(Member(results[|results| - 1], key)) then Some(Member(results[|results| - 1], key))
    else LastMember(results[..|results| - 1], key)
  }

  /** The entry for `agent` is the same in both maps. */
  predicate SameEntry(a: map<string, map<string, Value>>, b: map<string, map<string, Value>>, agent: string)
  {
    (agent in a <==> agent in b) && (agent in a ==> a[agent] == b[agent])
  }

  /** What one pass of the merge does to the entry of a design, marketing or renovation slot. */
  lemma AbsorbOneSlot(st: FanIn, res: Value, site: SiteGen, s: Slot)
    requires s == DesignSlot || s == MarketingSlot || s == RenovationSlot
    ensures var out := Absorb(st, res, site).outputs;
      if Truthy(Member(res, s.key)) then s.agent in out && s.slot in out[s.agent] && out[s.agent][s.slot] == Member(res, s.key)
      else SameEntry(out, st.outputs, s.agent)
  {
    if s == DesignSlot {
      AbsorbOneDesign(st, res, site);
    } else if s == MarketingSlot {
      AbsorbOneMarketing(st, res, site);
    } else {
      AbsorbOneRenovation(st, res, site);
    }
  }

  lemma AbsorbOneDesign(st: FanIn, res: Value, site: SiteGen)
    ensures var out := Absorb(st, res, site).outputs; var s := DesignSlot;
      if Truthy(Member(res, s.key)) then s.agent in out && s.slot in out[s.agent] && out[s.agent][s.slot] == Member(res, s.key)
      else SameEntry(out, st.outputs, s.agent)
  {
    var a1 := AbsorbSlot(st, res, DesignSlot);
    var a2 := AbsorbSlot(a1, res, MarketingSlot);
    var a3 := AbsorbTech(a2, res, site);
    assert SameEntry(a2.outputs, a1.outputs, "DesignAgent");
    assert SameEntry(a3.outputs, a2.outputs, "DesignAgent");
    assert SameEntry(AbsorbSlot(a3, res, RenovationSlot).outputs, a3.outputs, "DesignAgent");
  }

  lemma AbsorbOneMarketing(st: FanIn, res: Value, site: SiteGen)
    ensures var out := Absorb(st, res, site).outputs; var s := MarketingSlot;
      if Truthy(Member(res, s.key)) then s.agent in out && s.slot in out[s.agent] && out[s.agent][s.slot] == Member(res, s.key)
      else SameEntry(out, st.outputs, s.agent)
  {
    var a1 := AbsorbSlot(st, res, DesignSlot);
    var a2 := AbsorbSlot(a1, res, MarketingSlot);
    var a3 := AbsorbTech(a2, res, site);
    assert SameEntry(a1.outputs, st.outputs, "MarketingAgent");
    assert SameEntry(a3.outputs, a2.outputs, "MarketingAgent");
    assert SameEntry(AbsorbSlot(a3, res, RenovationSlot).outputs, a3.outputs, "MarketingAgent");
  }

  lemma AbsorbOneRenovation(st: FanIn, res: Value, site: SiteGen)
    ensures var out := Absorb(st, res, site).outputs; var s := RenovationSlot;
      if Truthy(Member(res, s.key)) then s.agent in out && s.slot in out[s.agent] && out[s.agent][s.slot] == Member(res, s.key)
      else SameEntry(out, st.outputs, s.agent)
  {
    var a1 := AbsorbSlot(st, res, DesignSlot);
    var a2 := AbsorbSlot(a1, res, MarketingSlot);
    var a3 := AbsorbTech(a2, res, site);
    assert SameEntry(a1.outputs, st.outputs, "RenovationAgent");
    assert SameEntry(a2.outputs, a1.outputs, "RenovationAgent");
    assert SameEntry(a3.outputs, a2.outputs, "RenovationAgent");
  }

  /** What one pass of the merge does to the tech entry. */
  lemma AbsorbOneTech(st: FanIn, res: Value, site: SiteGen)
    ensures var out := Absorb(st, res, site).outputs;
      var t := Member(res, "tech");
      if Truthy(t) then "TechAgent" in out && "tech" in out["TechAgent"] && out["TechAgent"]["tech"] == Stored(t, site)
      else SameEntry(out, st.outputs, "TechAgent")
  {
    var a1 := AbsorbSlot(st, res, DesignSlot);
    var a2 := AbsorbSlot(a1, res, MarketingSlot);
    var a3 := AbsorbTech(a2, res, site);
    var a4 := AbsorbSlot(a3, res, RenovationSlot);
    assert Absorb(st, res, site) == a4;
    assert SameEntry(a4.outputs, a3.outputs, "TechAgent");
    if !Truthy(Member(res, "tech")) {
      assert a3 == a2;
      assert SameEntry(a1.outputs, st.outputs, "TechAgent");
      assert SameEntry(a2.outputs, a1.outputs, "TechAgent");
    }
  }

  /** Design, marketing and renovation results each end up as the last result that carried
      one; when none did, the agent's entry is what it was before the join. */
  lemma {:induction false} AbsorbAllSlot(st: FanIn, results: seq<Value>, site: SiteGen, s: Slot)
    requires s == DesignSlot || s == MarketingSlot || s == RenovationSlot
    ensures var out := AbsorbAll(st, results, site).outputs;
      match LastMember(results, s.key)
      case Some(v) => s.agent in out && s.slot in out[s.agent] && out[s.agent][s.slot] == v
      case None => SameEntry(out, st.outputs, s.agent)
    decreases |results|
  {
    if results != [] {
      var n := |results| - 1;
      AbsorbAllSlot(st, results[..n], site, s);
      AbsorbOneSlot(AbsorbAll(st, results[..n], site), results[n], site, s);
    }
  }

  /** The tech artifact stored after the join is the last tech result, with `preview_url`
      when its preview was published. */
  lemma {:induction false} AbsorbAllTech(st: FanIn, results: seq<Value>, site: SiteGen)
    ensures var out := AbsorbAll(st, results, site).outputs;
      match LastMember(results, "tech")
      case Some(t) => "TechAgent" in out && "tech" in out["TechAgent"] && out["TechAgent"]["tech"] == Stored(t, site)
      case None => SameEntry(out, st.outputs, "TechAgent")
    decreases |results|
  {
    if results != [] {
      var n := |results| - 1;
      AbsorbAllTech(st, results[..n], site);
      AbsorbOneTech(AbsorbAll(st, results[..n], site), results[n], site);
    }
  }

  /** A preview address comes only from a site that was generated: when every generated site
      has the address `url`, the preview is `url` or unchanged, and when no site can be
      generated the preview is unchanged. */
  lemma {:induction false} AbsorbAllPreview(st: FanIn, results: seq<Value>, site: SiteGen, url: string)
    requires forall t :: site(t).Some? ==> site(t).value.url == url
    ensures var p := AbsorbAll(st, results, site).preview;
      p == st.preview || p == Some(url)
    ensures (forall t :: site(t).None?) ==> AbsorbAll(st, results, site).preview == st.preview
    decreases |results|
  {
    if results != [] {
      AbsorbAllPreview(st, results[..|results| - 1], site, url);
    }
  }

  /** `generateLocalSite` for a project and deployment at time `now`. */
  function LocalSiteGen(project: string, production: bool, writable: bool, now: nat): SiteGen
  {
    t => GenerateLocalSite(t, project, production, now, writable)
  }

  /** With the real site generator the only preview the merge can produce is the local site
      of the run's time stamp, and none in production or when the files cannot be written. */
  lemma MergedPreview(st: FanIn, results: seq<Value>, project: string, production: bool, writable: bool, now: nat)
    ensures var p := AbsorbAll(st, results, LocalSiteGen(project, production, writable, now)).preview;
      p == st.preview || (!production && writable && p == Some(SiteUrl(SiteName(project, now))))
  {
    var site := LocalSiteGen(project, production, writable, now);
    AbsorbAllPreview(st, results, site, SiteUrl(SiteName(project, now)));
    if production || !writable {
      assert forall t :: site(t).None?;
    }
  }

  /** The merge only appends events, and none of them ends the run. */
  lemma {:induction false} AbsorbAllEvents(st: FanIn, results: seq<Value>, site: SiteGen)
    requires Progress(st.events)
    ensures st.events <= AbsorbAll(st, results, site).events
    ensures Progress(AbsorbAll(st, results, site).events)
    decreases |results|
  {
    if results != [] {
      AbsorbAllEvents(st, results[..|results| - 1], site);
    }
  }

  // ---------------------------------------------------------------------------------

  /** How a run ends. The JavaScript run returns the question, the memory snapshot, or
      `null` after an error; the model keeps the error's message. */
  datatype RunResult = ClarificationNeeded(question: Value) | Finished(snapshot: Snapshot) | Failed(message: string)

  /** What the intent analysis decides: go on with the selected agents, ask the user, or
      stop on an error. */
  datatype Analysis = Proceed(active: seq<Value>) | Ask(question: Value) | Broken(message: string)

  /** The intent analysis's answer `o` could be read: its constraints, and an agent list
      that is an array. */
  predicate Understood(o: Outcome<Value>)
  {
    Field(o, "constraints").Returned? && RequiredAgents(o.value).Returned?
  }

  /** `intent.clarification_question` of an answer that could be read. */
  function Question(o: Outcome<Value>): Value
    requires Understood(o)
  {
    Prop(o.value, "clarification_question").value
  }

  /** The events of a run that has ended: exactly one terminal event, the last, and it agrees
      with the result the run reports. */
  ghost predicate Settled(es: seq<Event>, result: RunResult)
  {
    |es| >= 1 && Progress(es[..|es| - 1]) && Terminal(es[|es| - 1])
    && (result.Failed? <==> es[|es| - 1].Completion? && es[|es| - 1].error)
    && (result.Failed? ==> |es| >= 2 && es[|es| - 2..] == ErrorEvents(result.message))
    && (result.ClarificationNeeded? <==> es[|es| - 1].Clarification?)
    && (result.ClarificationNeeded? ==> es[|es| - 1] == Clarification(result.question))
  }

  /** Ending a run that had made progress with one terminal event settles it. */
  lemma EndWith(es: seq<Event>, e: Event)
    requires Progress(es) && Terminal(e)
    ensures var all := es + [e]; |all| >= 1 && Progress(all[..|all| - 1]) && Terminal(all[|all| - 1])
  {
    assert (es + [e])[..|es|] == es;
  }

  /** The run's last event hands over the blueprint the synthesis stored in the memory. */
  ghost predicate Synthesized(es: seq<Event>, outputs: map<string, map<string, Value>>)
  {
    |es| >= 1 && es[|es| - 1].Completion?
    && "SynthesisAgent" in outputs && "blueprint" in outputs["SynthesisAgent"]
    && es[|es| - 1].blueprint == outputs["SynthesisAgent"]["blueprint"]
  }

  class Orchestrator {
    const roster: Roster
    /** The name the preview site is filed under: always `ProjectName`. */
    const projectName: string
    /** `process.env.VERCEL || process.env.NODE_ENV === 'production'` */
    const production: bool
    /** Whether creating the site directory and writing its two files succeed. */
    const writable: bool
    /** The ids of the agents called so far, in call order; `roster(|called|)` answers the
        next call. */
    var called: seq<string>
    var memory: Memory
    /** The events the current run has emitted, in order. */
    var emitted: seq<Event>

    ghost predicate Valid()
      reads this, memory
    {
      memory.Valid()
    }

    constructor (roster: Roster, production: bool, writable: bool)
      ensures this.roster == roster && this.production == production && this.writable == writable
      ensures projectName == ProjectName
      ensures called == [] && emitted == [] && fresh(memory) && Valid() && memory.State() == EmptySnapshot
    {
      this.roster := roster;
      this.production := production;
      projectName := ProjectName;
      this.writable := writable;
      called := [];
      emitted := [];
      memory := new Memory();
    }

    method Emit(e: Event)
      modifies this
      ensures emitted == old(emitted) + [e] && called == old(called) && memory == old(memory)
      ensures Progress(old(emitted)) && !Terminal(e) ==> Progress(emitted)
    {
      emitted := emitted + [e];
    }

    /** One call of the agent `id`: the next completion of the roster. */
    method Call(id: string) returns (o: Outcome<Value>)
      modifies this
      ensures o == roster(|old(called)|) && called == old(called) + [id]
      ensures emitted == old(emitted) && memory == old(memory)
    {
      o := roster(|called|);
      called := called + [id];
    }

    /** The catch block: a rejected System event, then an error completion. */
    method Fail(message: string)
      modifies this
      ensures emitted == old(emitted) + ErrorEvents(message)
      ensures called == old(called) && memory == old(memory)
    {
      Emit(Timeline("System", "Critical Error: " + message, Rejected));
      Emit(Completion(Obj([("error", Str(message))]), None, true));
    }

    /** `runAgent(id, name, action)` for a selected agent: pending, the call, and the
      accepted event only when the call completes. */
    method RunAgent(id: string, name: string, action: string) returns (o: Outcome<Value>)
      modifies this
      ensures o == roster(|old(called)|) && called == old(called) + [id] && memory == old(memory)
      ensures emitted == old(emitted) + [Timeline(name, action, Pending)]
        + (if o.Returned? then [Timeline(name, "Task Complete", Accepted)] else [])
    {
      Emit(Timeline(name, action, Pending));
      o := Call(id);
      if o.Returned? {
        Emit(Timeline(name, "Task Complete", Accepted));
      }
    }

    /** The plan step: the planner's `execution_plan` becomes the memory's plan. */
    method Plan(active: seq<Value>) returns (err: Option<string>)
      requires Valid() && Progress(emitted)
      modifies this, memory
      ensures memory == old(memory) && Valid() && Progress(emitted) && old(emitted) <= emitted
      ensures called == old(called) + Pick(active, "planner")
      ensures !HasAgent(active, "planner") ==>
        err.None? && emitted == old(emitted) && memory.State() == old(memory.State())
      ensures HasAgent(active, "planner") && Field(roster(|old(called)|), "execution_plan").Threw? ==>
        err == Some(Field(roster(|old(called)|), "execution_plan").message) && memory.State() == old(memory.State())
      ensures HasAgent(active, "planner") && Field(roster(|old(called)|), "execution_plan").Returned? ==>
        err.None? && memory.State() == old(memory.State()).(executionPlan := Field(roster(|old(called)|), "execution_plan").value)
      ensures err.None? ==> AllReturned(roster, |old(called)|, |called|)
    {
      if HasAgent(active, "planner") {
        Emit(Timeline("Orchestrator Agent", "Generating Execution Plan...", Pending));
        var o := Call("planner");
        var plan := Field(o, "execution_plan");
        if plan.Threw? {
          return Some(plan.message);
        }
        memory.SetPlan(plan.value);
        Emit(Timeline("Orchestrator Agent", "Plan Generated", Accepted));
      }
      return None;
    }

    /** One operate-mode agent: its artifact is announced (never stored) when the result is truthy. */
    method Daily(active: seq<Value>, id: string, name: string, action: string, artifactId: string, title: string, key: string)
      returns (err: Option<string>)
      requires Progress(emitted)
      modifies this
      ensures memory == old(memory) && Progress(emitted) && old(emitted) <= emitted
      ensures !HasAgent(active, id) ==> err.None? && called == old(called) && emitted == old(emitted)
      ensures HasAgent(active, id) ==>
        called == old(called) + [id] && (err.Some? <==> roster(|old(called)|).Threw?)
      ensures HasAgent(active, id) && roster(|old(called)|).Threw? ==>
        err == Some(roster(|old(called)|).message) && emitted == old(emitted) + [Timeline(name, action, Pending)]
      ensures HasAgent(active, id) && roster(|old(called)|).Returned? ==>
        var v := roster(|old(called)|).value;
        emitted == old(emitted) + [Timeline(name, action, Pending), Timeline(name, "Task Complete", Accepted)]
          + (if Truthy(v) then [ArtifactUpdate(artifactId, title, Member(v, key), 1, true)] else [])
    {
      if HasAgent(active, id) {
        var o := RunAgent(id, name, action);
        if o.Threw? {
          return Some(o.message);
        }
        if Truthy(o.value) {
          Emit(ArtifactUpdate(artifactId, title, Member(o.value, key), 1, true));
        }
      }
      return None;
    }

    /** The `k`-th operate-mode agent, as one more step of the in-order run. */
    method DailyStep(active: seq<Value>, ghost c0: seq<string>, k: nat, name: string, action: string,
                     artifactId: string, title: string, key: string) returns (err: Option<string>)
      requires k < |DailyAgents| && Progress(emitted) && InOrder(roster, c0, called, Chosen(active, DailyAgents[..k]), None)
      modifies this
      ensures memory == old(memory) && Progress(emitted) && old(emitted) <= emitted
      ensures InOrder(roster, c0, called, Chosen(active, DailyAgents[..k + 1]), err)
    {
      ghost var c := called;
      err := Daily(active, DailyAgents[k], name, action, artifactId, title, key);
      ChosenSnoc(active, DailyAgents, k);
      InOrderAdvance(roster, active, c0, c, called, Chosen(active, DailyAgents[..k]), DailyAgents[k], err);
    }

    /** The four operate-mode agents (planner, ops, finance, advisor), in order: each selected
        one is called once, and the first failure ends the step. */
    method Operate(active: seq<Value>) returns (err: Option<string>)
      requires Progress(emitted)
      modifies this
      ensures memory == old(memory) && Progress(emitted) && old(emitted) <= emitted
      ensures InOrder(roster, old(called), called, Chosen(active, DailyAgents), err)
    {
      ghost var c0 := called;
      err := OperateOpen(active);
      if err.None? {
        err := OperateReview(active, c0);
      }
    }

    /** The first half of `Operate`: the planner and ops turns. A failure there ends the
        whole step. */
    method OperateOpen(active: seq<Value>) returns (err: Option<string>)
      requires Progress(emitted)
      modifies this
      ensures memory == old(memory) && Progress(emitted) && old(emitted) <= emitted
      ensures err.Some? ==> InOrder(roster, old(called), called, Chosen(active, DailyAgents), err)
      ensures err.None? ==> InOrder(roster, old(called), called, Chosen(active, DailyAgents[..2]), None)
    {
      ghost var c0 := called;
      assert DailyAgents[..0] == [];
      err := DailyStep(active, c0, 0, "Daily Planner", "Analyzing Today's Priorities", "daily_briefing", "Daily Briefing", "daily_briefing");
      if err.Some? {
        InOrderStop(roster, active, c0, called, DailyAgents, 1, err);
        return;
      }
      err := DailyStep(active, c0, 1, "Ops Intelligence", "Monitoring System Health", "ops_report", "Ops Intelligence Report", "ops_report");
      if err.Some? {
        InOrderStop(roster, active, c0, called, DailyAgents, 2, err);
      }
    }

    /** The second half of `Operate`: the finance and advisor turns, after the planner and
        ops turns called from the log `c0` completed. */
    method OperateReview(active: seq<Value>, ghost c0: seq<string>) returns (err: Option<string>)
      requires Progress(emitted) && InOrder(roster, c0, called, Chosen(active, DailyAgents[..2]), None)
      modifies this
      ensures memory == old(memory) && Progress(emitted) && old(emitted) <= emitted
      ensures InOrder(roster, c0, called, Chosen(active, DailyAgents), err)
    {
      err := DailyStep(active, c0, 2, "Finance Intelligence", "Reviewing Financial Health", "finance_review", "Financial Review", "financial_review");
      if err.Some? {
        InOrderStop(roster, active, c0, called, DailyAgents, 3, err);
        return;
      }
      err := DailyStep(active, c0, 3, "Decision Advisor", "Synthesizing Decision", "decision_memo", "Decision Memo", "decision_memo");
      assert DailyAgents[..4] == DailyAgents;
    }

    /** One debate turn: the draft's field is read, saved and announced at the round's version. */
    method Draft(callee: string, who: string, action: string, agent: string, key: string, id: string, title: string,
                 version: nat, done: Option<string>) returns (o: Outcome<Value>, err: Option<string>)
      requires Valid() && Progress(emitted)
      modifies this, memory
      ensures memory == old(memory) && Valid() && Progress(emitted) && old(emitted) <= emitted
      ensures o == roster(|old(called)|) && called == old(called) + [callee]
      ensures err.Some? <==> Field(o, key).Threw?
      ensures err.None? ==> o.Returned?
      ensures err.Some? ==> err.value == Field(o, key).message && memory.State() == old(memory.State())
      ensures err.None? ==>
        memory.State() == old(memory.State()).(agentOutputs := Store(old(memory.agentOutputs), agent, key, Field(o, key).value))
      ensures Versioned(emitted, |old(emitted)|, version)
    {
      ghost var e0 := emitted;
      Emit(Timeline(who, action, Pending));
      o := Call(callee);
      var v := Field(o, key);
      if v.Threw? {
        return o, Some(v.message);
      }
      ghost var e1 := emitted;
      assert Versioned(e1, |e0|, version);
      SaveDraft(who, agent, key, id, title, v.value, version, done);
      VersionedJoin(e1, emitted, |e0|, version);
      err := None;
    }

    /** The rest of a debate turn once the field is read: the draft is saved, announced at
        the round's version, and accepted when the turn has an accepted event. */
    method SaveDraft(who: string, agent: string, key: string, id: string, title: string, v: Value,
                     version: nat, done: Option<string>)
      requires Valid() && Progress(emitted)
      modifies this, memory
      ensures memory == old(memory) && Valid() && Progress(emitted) && old(emitted) <= emitted && called == old(called)
      ensures memory.State() == old(memory.State()).(agentOutputs := Store(old(memory.agentOutputs), agent, key, v))
      ensures Versioned(emitted, |old(emitted)|, version)
    {
      memory.SaveArtifact(agent, key, v);
      Emit(ArtifactUpdate(id, title, v, version, true));
      if done.Some? {
        Emit(Timeline(who, done.value, Accepted));
      }
    }

    /** The PASS branch: the contention is resolved and the budget approved. */
    method Approve(request: Value)
      requires Progress(emitted)
      modifies this
      ensures memory == old(memory) && called == old(called) && Progress(emitted)
      ensures emitted == old(emitted) + [
        Contention("budget-viability", "Financial Viability", ["Finance", "Strategy"], true,
          Str(if Truthy(request) then "Revised plan meets margin targets." else "Plan is financially sound."),
          "Strategy optimized for efficiency.", "\U{2714} Budget & Strategy Aligned"),
        Timeline("Finance Agent", "Budget Approved", Accepted)]
    {
      Emit(Contention("budget-viability", "Financial Viability", ["Finance", "Strategy"], true,
        Str(if Truthy(request) then "Revised plan meets margin targets." else "Plan is financially sound."),
        "Strategy optimized for efficiency.", "\U{2714} Budget & Strategy Aligned"));
      Emit(Timeline("Finance Agent", "Budget Approved", Accepted));
    }

    /** Any other decision: the contention stays open with Finance's issue and suggestion
        (or the defaults), a revision request is filed when Finance supplied one, and the
        round is marked revised. */
    method Reject(request: Value, now: nat)
      requires Valid() && Progress(emitted)
      modifies this, memory
      ensures memory == old(memory) && Valid() && called == old(called) && Progress(emitted)
      ensures |emitted| == |old(emitted)| + 2 && emitted[..|old(emitted)|] == old(emitted)
      ensures emitted[|emitted| - 2].Contention? && !emitted[|emitted| - 2].resolved
      ensures forall i :: |old(emitted)| <= i < |emitted| ==> !emitted[i].ArtifactUpdate?
      ensures emitted[|emitted| - 1] == Timeline("Finance Agent", "Budget Rejected - Revisions Requested", Revised)
      ensures !Truthy(request) ==> memory.State() == old(memory.State())
      ensures Truthy(request) ==>
        memory.State() == old(memory.State()).(
          revisionRequests := old(memory.revisionRequests) + [RevisionRequest(now, "FinanceAgent",
            Prop(request, "target_agent").value,
            ToString(Prop(request, "issue").value) + " Suggestion: " + ToString(Prop(request, "suggestion").value), false)],
          status := Revising)
    {
      var issue := if Truthy(request) then Prop(request, "issue").value else Str("Financials not viable.");
      var suggestion := if Truthy(request) then Prop(request, "suggestion").value else Str("Reduce costs.");
      Emit(Contention("budget-viability", "Financial Viability Conflict", ["Finance", "Strategy"], false,
        issue, "Strategy focuses on aggressive growth.", "\U{26A0} " + ToString(suggestion)));
      if Truthy(request) {
        memory.AddRevisionRequest(now, "FinanceAgent", Prop(request, "target_agent").value,
          ToString(issue) + " Suggestion: " + ToString(suggestion));
      }
      Emit(Timeline("Finance Agent", "Budget Rejected - Revisions Requested", Revised));
    }

    /** The three turns of a round, Strategy, Operations and Finance; the first failure ends it. */
    method Drafts(version: nat) returns (finance: Outcome<Value>, err: Option<string>)
      requires Valid() && Progress(emitted)
      modifies this, memory
      ensures memory == old(memory) && Valid() && Progress(emitted) && old(emitted) <= emitted
      ensures memory.State() == old(memory.State()).(agentOutputs := memory.agentOutputs)
      ensures old(called) < called && |called| <= |old(called)| + 3
      ensures err.None? ==>
        called == old(called) + Trio && AllReturned(roster, |old(called)|, |called|)
        && finance == roster(|old(called)| + 2) && Field(finance, "financials").Returned?
      ensures Versioned(emitted, |old(emitted)|, version)
    {
      ghost var e0, c0 := emitted, called;
      var o;
      o, err := Draft("strategy", "Strategy Agent", "Defining Business Strategy", "StrategyAgent", "strategy", "concept",
                      "Business Strategy", version, Some("Strategy Drafted"));
      if err.Some? {
        return o, err;
      }
      ghost var e1 := emitted;
      o, err := Draft("ops", "Operations Agent", "Planning Operations", "OperationsAgent", "operations", "ops",
                      "Operations Plan", version, Some("Operations Planned"));
      VersionedJoin(e1, emitted, |e0|, version);
      if err.Some? {
        return o, err;
      }
      ghost var e2 := emitted;
      finance, err := Draft("finance", "Finance Agent", "Validating Financial Viability", "FinanceAgent", "financials",
                            "finance", "Financial Model", version, None);
      VersionedJoin(e2, emitted, |e0|, version);
      if err.None? {
        TrioReturned(roster, c0);
      }
    }

    /** One Strategy -> Operations -> Finance round. Every artifact it announces carries the
        round's version; the round is approved exactly when Finance's decision is PASS. */
    method DebateRound(version: nat, now: nat) returns (err: Option<string>, approved: bool)
      requires Valid() && Progress(emitted)
      modifies this, memory
      ensures memory == old(memory) && Valid() && Progress(emitted) && old(emitted) <= emitted
      ensures Kept(old(memory.State()), memory.State())
      ensures old(called) < called && |called| <= |old(called)| + 3
      ensures err.Some? ==> !approved
      ensures err.None? ==>
        called == old(called) + Trio && AllReturned(roster, |old(called)|, |called|)
        && (approved <==> Passed(roster(|old(called)| + 2)))
      ensures old(memory.revisionRequests) <= memory.revisionRequests
      ensures |memory.revisionRequests| <= |old(memory.revisionRequests)| + (if err.None? && !approved then 1 else 0)
      ensures Versioned(emitted, |old(emitted)|, version)
    {
      ghost var e0 := emitted;
      var finance;
      finance, err := Drafts(version);
      if err.Some? {
        return err, false;
      }
      ghost var e3 := emitted;
      var verdict := finance.value;
      var request := Prop(verdict, "revision_request").value;
      approved := Prop(verdict, "decision").value == Str("PASS");
      if approved {
        Approve(request);
      } else {
        Reject(request, now);
      }
      assert Versioned(emitted, |e3|, version);
      VersionedJoin(e3, emitted, |e0|, version);
    }

    /** The debate: at most `MaxRevisions` rounds, ending at the first PASS; every rejected
        round counts as a revision, round r announces version r, every call of a finished
        debate has completed, and no financial check is logged. */
    method Debate(now: nat) returns (err: Option<string>, revisions: nat, approved: bool)
      requires Valid() && Progress(emitted)
      modifies this, memory
      ensures memory == old(memory) && Valid() && Progress(emitted) && old(emitted) <= emitted
      ensures Kept(old(memory.State()), memory.State())
      ensures revisions <= MaxRevisions
      ensures err.Some? ==> !approved
      ensures err.None? ==> approved || revisions == MaxRevisions
      ensures err.None? ==>
        called == old(called) + Rounds(if approved then revisions + 1 else revisions)
        && AllReturned(roster, |old(called)|, |called|)
      ensures forall r :: 0 <= r < revisions ==> !Passed(roster(|old(called)| + 3 * r + 2))
      ensures err.None? && approved ==> Passed(roster(|old(called)| + 3 * revisions + 2))
      ensures old(called) <= called
      ensures old(memory.revisionRequests) <= memory.revisionRequests
      ensures |memory.revisionRequests| <= |old(memory.revisionRequests)| + revisions
      ensures forall i :: |old(emitted)| <= i < |emitted| && emitted[i].ArtifactUpdate? ==>
        1 <= emitted[i].version <= revisions + 1
    {
      ghost var c0, e0, s0, rq0 := called, emitted, memory.State(), memory.revisionRequests;
      err, revisions, approved := Debating(now);
      assert Rebutted(roster, c0, e0, s0, rq0, revisions, called, emitted, memory.State());
    }

    /** The debate loop, its outcome stated through `Debated`. */
    method Debating(now: nat) returns (err: Option<string>, revisions: nat, approved: bool)
      requires Valid() && Progress(emitted)
      modifies this, memory
      ensures memory == old(memory)
      ensures Debated(old(called), old(emitted), old(memory.State()), old(memory.revisionRequests), revisions)
      ensures err.Some? ==> !approved
      ensures err.None? ==>
        (approved || revisions == MaxRevisions)
        && called == old(called) + Rounds(if approved then revisions + 1 else revisions)
        && AllReturned(roster, |old(called)|, |called|)
      ensures err.None? && approved ==> Passed(roster(|old(called)| + 3 * revisions + 2))
    {
      ghost var c0, e0, s0, rq0 := called, emitted, memory.State(), memory.revisionRequests;
      revisions := 0;
      while revisions < MaxRevisions
        invariant memory == old(memory) && Debated(c0, e0, s0, rq0, revisions)
        invariant called == c0 + Rounds(revisions) && AllReturned(roster, |c0|, |called|)
      {
        var e, a := DebateStep(c0, e0, s0, rq0, revisions, now);
        if e.Some? {
          return e, revisions, false;
        }
        if a {
          return None, revisions, true;
        }
        revisions := revisions + 1;
      }
      return None, revisions, false;
    }

    /** What the debate has done after `revisions` rejected rounds, started with the calls
        `c0` made, `e0` emitted, the memory at `s0` and the revision log at `rq0`. */
    ghost predicate Debated(c0: seq<string>, e0: seq<Event>, s0: Snapshot, rq0: seq<RevisionRequest>, revisions: nat)
      reads this, memory
    {
      Valid() && Rebutted(roster, c0, e0, s0, rq0, revisions, called, emitted, memory.State())
    }

    /** One round of the debate loop after `revisions` rejections: a failed round stops it,
        an approved one ends it, a rejected one counts as one more revision. */
    method DebateStep(ghost c0: seq<string>, ghost e0: seq<Event>, ghost s0: Snapshot, ghost rq0: seq<RevisionRequest>,
                      revisions: nat, now: nat) returns (err: Option<string>, approved: bool)
      requires Debated(c0, e0, s0, rq0, revisions) && called == c0 + Rounds(revisions) && revisions < MaxRevisions
      requires AllReturned(roster, |c0|, |called|)
      modifies this, memory
      ensures memory == old(memory)
      ensures err.Some? ==> Debated(c0, e0, s0, rq0, revisions) && !approved
      ensures err.None? ==> called == c0 + Rounds(revisions + 1) && AllReturned(roster, |c0|, |called|)
      ensures err.None? && approved ==> Debated(c0, e0, s0, rq0, revisions) && Passed(roster(|c0| + 3 * revisions + 2))
      ensures err.None? && !approved ==> Debated(c0, e0, s0, rq0, revisions + 1)
    {
      ghost var e1, s1, c1 := emitted, memory.State(), called;
      err, approved := DebateRound(revisions + 1, now);
      if err.None? {
        assert called == c0 + (Rounds(revisions) + Trio);
      }
      RebuttedNext(roster, c0, e0, s0, rq0, revisions, c1, e1, s1, called, emitted, memory.State(), err.None? && !approved);
      if err.None? && approved {
        assert |c1| == |c0| + 3 * revisions;
      }
    }

    /** The debate when Strategy, Operations and Finance are all selected, the linear
        fallback otherwise. */
    method Deliberate(active: seq<Value>, now: nat) returns (err: Option<string>, revisions: nat, approved: bool)
      requires Valid() && Progress(emitted)
      modifies this, memory
      ensures memory == old(memory) && Valid() && Progress(emitted) && old(emitted) <= emitted
      ensures Kept(old(memory.State()), memory.State()) && old(called) <= called
      ensures IsDebateMode(active) ==>
        revisions <= MaxRevisions && (err.Some? ==> !approved)
        && (err.None? ==>
              (approved || revisions == MaxRevisions)
              && called == old(called) + Rounds(if approved then revisions + 1 else revisions)
              && AllReturned(roster, |old(called)|, |called|))
        && (forall r :: 0 <= r < revisions ==> !Passed(roster(|old(called)| + 3 * r + 2)))
        && (err.None? && approved ==> Passed(roster(|old(called)| + 3 * revisions + 2)))
        && (forall i :: |old(emitted)| <= i < |emitted| && emitted[i].ArtifactUpdate? ==>
              1 <= emitted[i].version <= revisions + 1)
      ensures !IsDebateMode(active) ==>
        revisions == 0 && !approved && InOrder(roster, old(called), called, Chosen(active, Trio), err)
        && memory.State() == old(memory.State()).(agentOutputs := memory.agentOutputs)
        && (forall i :: |old(emitted)| <= i < |emitted| && emitted[i].ArtifactUpdate? ==> emitted[i].version == 1)
    {
      if IsDebateMode(active) {
        err, revisions, approved := Debate(now);
      } else {
        err := Linear(active);
        revisions, approved := 0, false;
      }
    }

    /** One agent of the linear fallback: a truthy result's entry is stored and announced as version 1. */
    method Single(active: seq<Value>, id: string, name: string, action: string,
                  agent: string, key: string, artifactId: string, title: string) returns (err: Option<string>)
      requires Valid() && Progress(emitted)
      modifies this, memory
      ensures memory == old(memory) && Valid() && Progress(emitted) && old(emitted) <= emitted
      ensures !HasAgent(active, id) ==>
        err.None? && called == old(called) && emitted == old(emitted) && memory.State() == old(memory.State())
      ensures HasAgent(active, id) ==>
        called == old(called) + [id] && (err.Some? <==> roster(|old(called)|).Threw?)
        && (err.Some? ==> err == Some(roster(|old(called)|).message))
      ensures HasAgent(active, id) && roster(|old(called)|).Returned? && Truthy(roster(|old(called)|).value) ==>
        memory.agentOutputs == Store(old(memory.agentOutputs), agent, key, Member(roster(|old(called)|).value, key))
      ensures HasAgent(active, id) && roster(|old(called)|).Returned? && !Truthy(roster(|old(called)|).value) ==>
        memory.agentOutputs == old(memory.agentOutputs)
      ensures memory.State() == old(memory.State()).(agentOutputs := memory.agentOutputs)
      ensures forall i :: |old(emitted)| <= i < |emitted| && emitted[i].ArtifactUpdate? ==> emitted[i].version == 1
    {
      if HasAgent(active, id) {
        var o := RunAgent(id, name, action);
        if o.Threw? {
          return Some(o.message);
        }
        if Truthy(o.value) {
          var v := Member(o.value, key);
          memory.SaveArtifact(agent, key, v);
          Emit(ArtifactUpdate(artifactId, title, v, 1, true));
        }
      }
      return None;
    }

    /** The `k`-th agent of the linear fallback, as one more step of the in-order run. */
    method SingleStep(active: seq<Value>, ghost c0: seq<string>, k: nat, name: string, action: string,
                      agent: string, key: string, artifactId: string, title: string) returns (err: Option<string>)
      requires k < |Trio| && Valid() && Progress(emitted) && InOrder(roster, c0, called, Chosen(active, Trio[..k]), None)
      modifies this, memory
      ensures memory == old(memory) && Valid() && Progress(emitted) && old(emitted) <= emitted
      ensures memory.State() == old(memory.State()).(agentOutputs := memory.agentOutputs)
      ensures InOrder(roster, c0, called, Chosen(active, Trio[..k + 1]), err)
      ensures forall i :: |old(emitted)| <= i < |emitted| && emitted[i].ArtifactUpdate? ==> emitted[i].version == 1
    {
      ghost var c := called;
      err := Single(active, Trio[k], name, action, agent, key, artifactId, title);
      ChosenSnoc(active, Trio, k);
      InOrderAdvance(roster, active, c0, c, called, Chosen(active, Trio[..k]), Trio[k], err);
    }

    /** Without the full debate trio each selected agent of the three (strategy, ops,
        finance) runs once, in order, and the first failure ends the step. */
    method Linear(active: seq<Value>) returns (err: Option<string>)
      requires Valid() && Progress(emitted)
      modifies this, memory
      ensures memory == old(memory) && Valid() && Progress(emitted) && old(emitted) <= emitted
      ensures memory.State() == old(memory.State()).(agentOutputs := memory.agentOutputs)
      ensures InOrder(roster, old(called), called, Chosen(active, Trio), err)
      ensures forall i :: |old(emitted)| <= i < |emitted| && emitted[i].ArtifactUpdate? ==> emitted[i].version == 1
    {
      ghost var c0 := called;
      assert Trio[..0] == [];
      err := SingleStep(active, c0, 0, "Strategy Agent", "Defining Business Strategy", "StrategyAgent", "strategy", "concept", "Business Strategy");
      if err.Some? {
        InOrderStop(roster, active, c0, called, Trio, 1, err);
        return;
      }
      err := LinearRest(active, c0);
    }

    /** The operations and finance turns of `Linear`, after the strategy turn called from
        the log `c0` completed. */
    method LinearRest(active: seq<Value>, ghost c0: seq<string>) returns (err: Option<string>)
      requires Valid() && Progress(emitted) && InOrder(roster, c0, called, Chosen(active, Trio[..1]), None)
      modifies this, memory
      ensures memory == old(memory) && Valid() && Progress(emitted) && old(emitted) <= emitted
      ensures memory.State() == old(memory.State()).(agentOutputs := memory.agentOutputs)
      ensures InOrder(roster, c0, called, Chosen(active, Trio), err)
      ensures forall i :: |old(emitted)| <= i < |emitted| && emitted[i].ArtifactUpdate? ==> emitted[i].version == 1
    {
      err := SingleStep(active, c0, 1, "Operations Agent", "Planning Operations", "OperationsAgent", "operations", "ops", "Operations Plan");
      if err.Some? {
        InOrderStop(roster, active, c0, called, Trio, 2, err);
        return;
      }
      err := SingleStep(active, c0, 2, "Finance Agent", "Validating Financial Viability", "FinanceAgent", "financials", "finance", "Financial Model");
      assert Trio[..3] == Trio;
    }

    /** `saveArtifact(agent, key, v)` followed by the two events that announce it. */
    method RecordStep(agent: string, key: string, v: Value, first: Event, second: Event, ghost preview: Option<string>)
      requires Valid() && !Terminal(first) && !Terminal(second)
      modifies this, memory
      ensures memory == old(memory) && Valid() && called == old(called)
      ensures memory.State() == old(memory.State()).(agentOutputs := memory.agentOutputs)
      ensures Record(FanIn(old(memory.agentOutputs), old(emitted), preview), agent, key, v, [first, second])
        == FanIn(memory.agentOutputs, emitted, preview)
    {
      memory.SaveArtifact(agent, key, v);
      Emit(first);
      Emit(second);
    }

    /** One slot of the `forEach` body. */
    method AbsorbSlotStep(res: Value, s: Slot, ghost preview: Option<string>)
      requires Valid()
      modifies this, memory
      ensures memory == old(memory) && Valid() && called == old(called)
      ensures memory.State() == old(memory.State()).(agentOutputs := memory.agentOutputs)
      ensures AbsorbSlot(FanIn(old(memory.agentOutputs), old(emitted), preview), res, s)
        == FanIn(memory.agentOutputs, emitted, preview)
    {
      var v := Member(res, s.key);
      if Truthy(v) {
        RecordStep(s.agent, s.slot, v, ArtifactUpdate(s.id, s.title, v, 1, true), Timeline(s.who, s.action, Accepted), preview);
      }
    }

    /** `generateLocalSite` for this orchestrator's project and deployment at time `now`. */
    function SiteOf(now: nat): SiteGen
    {
      LocalSiteGen(projectName, production, writable, now)
    }

    /** The tech branch of the `forEach` body, with the preview site `site` writes. */
    method AbsorbTechStep(res: Value, site: SiteGen, preview0: Option<string>) returns (preview: Option<string>)
      requires Valid()
      modifies this, memory
      ensures memory == old(memory) && Valid() && called == old(called)
      ensures memory.State() == old(memory.State()).(agentOutputs := memory.agentOutputs)
      ensures AbsorbTech(FanIn(old(memory.agentOutputs), old(emitted), preview0), res, site)
        == FanIn(memory.agentOutputs, emitted, preview)
    {
      preview := preview0;
      ghost var st0 := FanIn(memory.agentOutputs, emitted, preview0);
      var t := Member(res, "tech");
      if Truthy(t) {
        var first := [ArtifactUpdate("tech", "Technical Architecture", t, 1, true), Timeline("Tech Agent", "Tech Stack Defined", Accepted)];
        RecordStep("TechAgent", "tech", t, first[0], first[1], preview0);
        ghost var saved := FanIn(memory.agentOutputs, emitted, preview0);
        assert saved == Record(st0, "TechAgent", "tech", t, first);
        preview := PublishPreview(t, site, preview0);
      }
    }

    /** The preview half of the tech branch: when the site is written and the artifact takes
        its address, the artifact is stored again as version 2 and the site announced. */
    method PublishPreview(t: Value, site: SiteGen, preview0: Option<string>) returns (preview: Option<string>)
      requires Valid()
      modifies this, memory
      ensures memory == old(memory) && Valid() && called == old(called)
      ensures memory.State() == old(memory.State()).(agentOutputs := memory.agentOutputs)
      ensures Publish(t, site).None? ==>
        preview == preview0 && memory.agentOutputs == old(memory.agentOutputs) && emitted == old(emitted)
      ensures Publish(t, site).Some? ==>
        var p := Publish(t, site).value;
        FanIn(memory.agentOutputs, emitted, preview) == Published(FanIn(old(memory.agentOutputs), old(emitted), preview0), p.0, p.1)
    {
      preview := preview0;
      var p := Publish(t, site);
      if p.Some? {
        var url, tech := p.value.0, p.value.1;
        RecordStep("TechAgent", "tech", tech, ArtifactUpdate("tech", "Technical Architecture", tech, 2, true),
          Timeline("System", "Website Live at " + url, Accepted), preview0);
        preview := Some(url);
      }
    }

    /** The calls of the execution phase, issued before any of them is awaited. */
    method Dispatch(active: seq<Value>) returns (outcomes: seq<Outcome<Value>>)
      modifies this
      ensures memory == old(memory) && emitted == old(emitted)
      ensures var n := Enlisted(active, memory.images != []);
        called == old(called) + n && outcomes == Outcomes(roster, |old(called)|, |n|)
    {
      ghost var c0 := called;
      ghost var d, m, t := Pick(active, "design"), Pick(active, "marketing"), Pick(active, "tech");
      outcomes := CallIf(HasAgent(active, "design"), "design", c0, [], []);
      outcomes := CallIf(HasAgent(active, "marketing"), "marketing", c0, d, outcomes);
      outcomes := CallIf(HasAgent(active, "tech"), "tech", c0, d + m, outcomes);
      outcomes := CallIf(|memory.images| > 0, "renovation", c0, d + m + t, outcomes);
    }

    /** One `if (agents.includes(id)) promises.push(agent.run(...))` of the dispatch: the
        agent `id` is called, and its outcome collected, only when `take` holds. The calls
        `sel` issued so far, from the call log `c0` on, and their outcomes `prior` are
        extended by this one. */
    method CallIf(take: bool, id: string, ghost c0: seq<string>, ghost sel: seq<string>, prior: seq<Outcome<Value>>)
      returns (outcomes: seq<Outcome<Value>>)
      requires called == c0 + sel && prior == Outcomes(roster, |c0|, |sel|)
      modifies this
      ensures memory == old(memory) && emitted == old(emitted)
      ensures called == c0 + (sel + (if take then [id] else []))
      ensures outcomes == Outcomes(roster, |c0|, |sel + (if take then [id] else [])|)
    {
      outcomes := prior;
      if take {
        var o := Call(id);
        outcomes := outcomes + [o];
        assert called == c0 + (sel + [id]);
      } else {
        assert sel + [] == sel;
      }
    }

    /** The `results.forEach` merge, with the preview site `site` writes. */
    method Merge(results: seq<Value>, site: SiteGen) returns (preview: Option<string>)
      requires Valid()
      modifies this, memory
      ensures memory == old(memory) && Valid() && called == old(called)
      ensures memory.State() == old(memory.State()).(agentOutputs := memory.agentOutputs)
      ensures AbsorbAll(FanIn(old(memory.agentOutputs), old(emitted), None), results, site)
        == FanIn(memory.agentOutputs, emitted, preview)
    {
      ghost var start := FanIn(memory.agentOutputs, emitted, None);
      preview := None;
      var i := 0;
      while i < |results|
        invariant 0 <= i <= |results|
        invariant memory == old(memory) && Valid() && called == old(called)
        invariant memory.State() == old(memory.State()).(agentOutputs := memory.agentOutputs)
        invariant AbsorbAll(start, results[..i], site) == FanIn(memory.agentOutputs, emitted, preview)
      {
        assert results[..i + 1][..i] == results[..i];
        var res := results[i];
        AbsorbSlotStep(res, DesignSlot, preview);
        AbsorbSlotStep(res, MarketingSlot, preview);
        preview := AbsorbTechStep(res, site, preview);
        AbsorbSlotStep(res, RenovationSlot, preview);
        i := i + 1;
      }
      assert results[..i] == results;
    }

    /** The execution phase: design, marketing and tech per `hasAgent`, renovation when the
        memory holds images. All calls are issued, then the pending events; a failed call
        sends the run to the error path before anything is merged; otherwise the results
        are merged in the order the calls were issued. A preview address is only ever the
        local site of this run's time stamp. */
    method FanOut(active: seq<Value>, now: nat) returns (err: Option<string>, preview: Option<string>)
      requires Valid() && Progress(emitted)
      modifies this, memory
      ensures memory == old(memory) && Valid() && Progress(emitted) && old(emitted) <= emitted
      ensures memory.State() == old(memory.State()).(agentOutputs := memory.agentOutputs)
      ensures var n := Enlisted(active, old(memory.images) != []);
        called == old(called) + n
        && Joined(Outcomes(roster, |old(called)|, |n|), err, FanIn(old(memory.agentOutputs), old(emitted), None),
                  FanOutPending(active), SiteOf(now), FanIn(memory.agentOutputs, emitted, preview))
      ensures preview.Some? ==> !production && writable && preview.value == SiteUrl(SiteName(projectName, now))
    {
      var outcomes := Dispatch(active);
      if |outcomes| == 0 {
        return None, None;
      }
      AnnounceFanOut(active);
      err := FirstFailure(outcomes);
      if err.Some? {
        return err, None;
      }
      FirstFailureSpec(outcomes);
      ghost var start := FanIn(memory.agentOutputs, emitted, None);
      var results := Values(outcomes);
      preview := Merge(results, SiteOf(now));
      AbsorbAllEvents(start, results, SiteOf(now));
      MergedPreview(start, results, projectName, production, writable, now);
    }

    /** The pending events of the execution phase. */
    method AnnounceFanOut(active: seq<Value>)
      requires Progress(emitted)
      modifies this
      ensures emitted == old(emitted) + FanOutPending(active) && Progress(emitted)
      ensures called == old(called) && memory == old(memory)
    {
      if HasAgent(active, "design") {
        Emit(Timeline("Design Agent", "Designing Brand Identity", Pending));
      }
      if HasAgent(active, "marketing") {
        Emit(Timeline("Marketing Agent", "Planning Launch", Pending));
      }
      if HasAgent(active, "tech") {
        Emit(Timeline("Tech Agent", "Generating Tech Stack", Pending));
      }
    }

    /** The catch block of `run`: the error is reported and the run ends. */
    method Abort(message: string) returns (result: RunResult)
      requires Progress(emitted)
      modifies this
      ensures result == Failed(message) && emitted == old(emitted) + ErrorEvents(message)
      ensures called == old(called) && memory == old(memory)
      ensures Settled(emitted, result)
    {
      ghost var before := emitted;
      Fail(message);
      result := Failed(message);
      assert emitted == (before + [ErrorEvents(message)[0]]) + [ErrorEvents(message)[1]];
      EndWith(before + [ErrorEvents(message)[0]], ErrorEvents(message)[1]);
    }

    /** Ends a run that reached its completion without an error. */
    method Complete(blueprint: Value, preview: Option<string>) returns (result: RunResult)
      requires Progress(emitted)
      modifies this
      ensures emitted == old(emitted) + [Completion(blueprint, preview, false)]
      ensures called == old(called) && memory == old(memory)
      ensures result == Finished(memory.State()) && Settled(emitted, result)
    {
      EndWith(emitted, Completion(blueprint, preview, false));
      Emit(Completion(blueprint, preview, false));
      var snapshot := memory.GetSnapshot();
      result := Finished(snapshot);
    }

    /** The phases of `run` before the debate: planning, then the operate-mode agents. Only
        the plan changes in the memory; when neither step fails, the planner (when selected)
        and then the selected operate-mode agents were each called once and all completed. */
    method Prepare(active: seq<Value>) returns (err: Option<string>)
      requires Valid() && Progress(emitted)
      modifies this, memory
      ensures memory == old(memory) && Valid() && Progress(emitted) && old(emitted) <= emitted
      ensures memory.State() == old(memory.State()).(executionPlan := memory.executionPlan)
      ensures old(called) <= called
      ensures err.None? ==>
        called == old(called) + Pick(active, "planner") + Chosen(active, DailyAgents)
        && AllReturned(roster, |old(called)|, |called|)
    {
      err := Plan(active);
      if err.Some? {
        return;
      }
      err := Operate(active);
    }

    /** The fan-out as the rest of the run depends on it: every enlisted agent was called
        once; the error is the first failed call's, in which case only the pending events
        were added; otherwise every call completed. */
    method Gather(active: seq<Value>, now: nat) returns (err: Option<string>, preview: Option<string>)
      requires Valid() && Progress(emitted)
      modifies this, memory
      ensures memory == old(memory) && Valid() && Progress(emitted) && old(emitted) <= emitted
      ensures memory.State() == old(memory.State()).(agentOutputs := memory.agentOutputs)
      ensures var n := Enlisted(active, old(memory.images) != []);
        called == old(called) + n
        && err == (if n == [] then None else FirstFailure(Outcomes(roster, |old(called)|, |n|)))
      ensures err.Some? ==>
        preview.None? && emitted == old(emitted) + FanOutPending(active) && memory.agentOutputs == old(memory.agentOutputs)
      ensures err.None? ==> AllReturned(roster, |old(called)|, |called|)
      ensures preview.Some? ==> !production && writable && preview.value == SiteUrl(SiteName(projectName, now))
    {
      ghost var c0 := called;
      err, preview := FanOut(active, now);
      if err.None? {
        NoFailureAllReturned(roster, |c0|, |called| - |c0|);
      }
    }

    /** The phases of `run` from the fan-out on: the join, then the early completion with
        the local preview or the synthesis and the completion (see `Conclude`). A failed
        fan-out call fails the run with its message; a run that does not fail had every
        call complete. */
    method Deliver(active: seq<Value>, now: nat) returns (result: RunResult)
      requires Valid() && Progress(emitted)
      modifies this, memory
      ensures memory == old(memory) && Valid() && old(emitted) < emitted
      ensures memory.State() == old(memory.State()).(agentOutputs := memory.agentOutputs)
      ensures old(called) <= called && !result.ClarificationNeeded?
      ensures Settled(emitted, result)
      ensures var n := Enlisted(active, old(memory.images) != []);
        n != [] && FirstFailure(Outcomes(roster, |old(called)|, |n|)).Some? ==>
          result == Failed(FirstFailure(Outcomes(roster, |old(called)|, |n|)).value) && called == old(called) + n
      ensures !result.Failed? ==> AllReturned(roster, |old(called)|, |called|)
      ensures result.Finished? ==> result.snapshot == memory.State()
    {
      ghost var c0 := called;
      var err, preview := Gather(active, now);
      if err.Some? {
        result := Abort(err.value);
      } else {
        result := ConcludeJoined(active, preview, c0);
      }
    }

    /** `Conclude` after a fan-out whose calls, logged from `c0` on, all completed: a run
        that does not fail then had every call since `c0` complete. */
    method ConcludeJoined(active: seq<Value>, preview: Option<string>, ghost c0: seq<string>) returns (result: RunResult)
      requires Valid() && Progress(emitted)
      requires c0 <= called && AllReturned(roster, |c0|, |called|)
      modifies this, memory
      ensures memory == old(memory) && Valid() && old(emitted) < emitted
      ensures memory.State() == old(memory.State()).(agentOutputs := memory.agentOutputs)
      ensures old(called) <= called && !result.ClarificationNeeded? && Settled(emitted, result)
      ensures !result.Failed? ==> AllReturned(roster, |c0|, |called|)
      ensures result.Finished? ==> result.snapshot == memory.State()
    {
      ghost var c1 := called;
      result := Conclude(active, preview);
      if !result.Failed? {
        AllReturnedJoin(roster, |c0|, |c1|, |called|);
      }
    }

    /** The end of `run` once the fan-out has joined: the early completion with the local
        preview, or the synthesis (when selected) and the completion. The synthesis agent is
        called exactly when there is no preview and `ShouldSynthesize` holds. */
    method Conclude(active: seq<Value>, preview: Option<string>) returns (result: RunResult)
      requires Valid() && Progress(emitted)
      modifies this, memory
      ensures memory == old(memory) && Valid() && old(emitted) < emitted
      ensures called == old(called) + (if preview.None? && ShouldSynthesize(active) then ["synthesis"] else [])
      ensures preview.Some? || !ShouldSynthesize(active) ==>
        result == Finished(old(memory.State())) && memory.State() == old(memory.State())
        && emitted == old(emitted) + [Completion(DefaultBlueprint, preview, false)]
      ensures preview.None? && ShouldSynthesize(active) && Field(roster(|old(called)|), "final_blueprint").Threw? ==>
        result == Failed(Field(roster(|old(called)|), "final_blueprint").message) && memory.State() == old(memory.State())
        && emitted == old(emitted) + [Timeline("Synthesis Agent", "Assembling Final Blueprint", Pending)]
           + ErrorEvents(result.message)
      ensures preview.None? && ShouldSynthesize(active) && Field(roster(|old(called)|), "final_blueprint").Returned? ==>
        var b := Field(roster(|old(called)|), "final_blueprint").value;
        result == Finished(memory.State())
        && memory.State() == old(memory.State()).(agentOutputs := Store(old(memory.agentOutputs), "SynthesisAgent", "blueprint", b))
        && emitted == old(emitted) + [Timeline("Synthesis Agent", "Assembling Final Blueprint", Pending), Completion(b, None, false)]
      ensures memory.State() == old(memory.State()).(agentOutputs := memory.agentOutputs)
      ensures !result.Failed? ==> AllReturned(roster, |old(called)|, |called|)
      ensures !result.ClarificationNeeded? && Settled(emitted, result)
      ensures result.Finished? ==> result.snapshot == memory.State() && emitted[|emitted| - 1].previewUrl == preview
      ensures result.Finished? && emitted[|emitted| - 1].previewUrl.Some? ==> emitted[|emitted| - 1].blueprint == DefaultBlueprint
      ensures result.Finished? && emitted[|emitted| - 1].previewUrl.None? && ShouldSynthesize(active) ==>
        Synthesized(emitted, memory.agentOutputs)
    {
      if preview.Some? || !ShouldSynthesize(active) {
        result := Complete(DefaultBlueprint, preview);
      } else {
        result := Synthesize();
      }
    }

    /** The synthesis agent's turn: its `final_blueprint` is stored and completes the run, or
        the error reading it fails the run. */
    method Synthesize() returns (result: RunResult)
      requires Valid() && Progress(emitted)
      modifies this, memory
      ensures memory == old(memory) && Valid() && old(emitted) < emitted
      ensures called == old(called) + ["synthesis"]
      ensures Field(roster(|old(called)|), "final_blueprint").Threw? ==>
        result == Failed(Field(roster(|old(called)|), "final_blueprint").message) && memory.State() == old(memory.State())
        && emitted == old(emitted) + [Timeline("Synthesis Agent", "Assembling Final Blueprint", Pending)]
           + ErrorEvents(result.message)
      ensures Field(roster(|old(called)|), "final_blueprint").Returned? ==>
        var b := Field(roster(|old(called)|), "final_blueprint").value;
        result == Finished(memory.State())
        && memory.State() == old(memory.State()).(agentOutputs := Store(old(memory.agentOutputs), "SynthesisAgent", "blueprint", b))
        && emitted == old(emitted) + [Timeline("Synthesis Agent", "Assembling Final Blueprint", Pending), Completion(b, None, false)]
      ensures memory.State() == old(memory.State()).(agentOutputs := memory.agentOutputs)
      ensures !result.Failed? ==> roster(|old(called)|).Returned?
      ensures !result.ClarificationNeeded? && Settled(emitted, result)
      ensures result.Finished? ==>
        emitted[|emitted| - 1].previewUrl.None? && Synthesized(emitted, memory.agentOutputs)
    {
      Emit(Timeline("Synthesis Agent", "Assembling Final Blueprint", Pending));
      var synthesis := Call("synthesis");
      var b := Field(synthesis, "final_blueprint");
      if b.Threw? {
        result := Abort(b.message);
        return;
      }
      memory.SaveArtifact("SynthesisAgent", "blueprint", b.value);
      result := Complete(b.value, None);
    }

    /** Creates the run's memory, stores the images and the command, and announces the
        intent analysis. */
    method Start(command: string, role: string, images: seq<Value>)
      modifies this
      ensures fresh(memory) && Valid() && called == old(called)
      ensures memory.State() == EmptySnapshot.(userIntent := ActiveCommand(command, role), images := images, status := Planning)
      ensures emitted == [Timeline("Intent Analyzer Agent", "Thinking...", Pending)]
    {
      memory := new Memory();
      emitted := [];
      if |images| > 0 {
        memory.SetImages(images);
      }
      memory.Init(ActiveCommand(command, role));
      Emit(Timeline("Intent Analyzer Agent", "Thinking...", Pending));
    }

    /** The intent analysis: one call of the intent agent, whose constraints are merged into
        the memory, whose selection names the agents, and whose question, exactly when it is
        truthy, halts the run. */
    method Analyze() returns (a: Analysis)
      requires Valid() && Progress(emitted)
      modifies this, memory
      ensures memory == old(memory) && Valid() && called == old(called) + ["intent"]
      ensures var o := roster(|old(called)|);
        Field(o, "constraints").Threw? ==>
          a == Broken(Field(o, "constraints").message) && emitted == old(emitted) && memory.State() == old(memory.State())
      ensures var o := roster(|old(called)|);
        Field(o, "constraints").Returned? ==>
          memory.State() == old(memory.State()).(constraints := memory.constraints)
          && memory.constraints == Js.Merge(old(memory.constraints), Spread(Field(o, "constraints").value))
      ensures var o := roster(|old(called)|);
        Field(o, "constraints").Returned? && RequiredAgents(o.value).Threw? ==>
          a == Broken(RequiredAgents(o.value).message) && emitted == old(emitted)
      ensures var o := roster(|old(called)|);
        Understood(o) ==>
          emitted == old(emitted) + [Timeline("Intent Analyzer Agent", "Analyzed Intent: " + ToString(Prop(o.value, "mode").value), Accepted)]
          && (a.Ask? <==> Truthy(Question(o)))
          && a == (if Truthy(Question(o)) then Ask(Question(o)) else Proceed(RequiredAgents(o.value).value))
      ensures a.Broken? <==> !Understood(roster(|old(called)|))
      ensures !a.Broken? ==> roster(|old(called)|).Returned?
      ensures !a.Broken? ==> Progress(emitted)
    {
      var intent := Call("intent");
      var constraints := Field(intent, "constraints");
      if constraints.Threw? {
        return Broken(constraints.message);
      }
      memory.UpdateConstraints(Spread(constraints.value));
      var required := RequiredAgents(intent.value);
      if required.Threw? {
        return Broken(required.message);
      }
      Emit(Timeline("Intent Analyzer Agent", "Analyzed Intent: " + ToString(Prop(intent.value, "mode").value), Accepted));
      var question := Prop(intent.value, "clarification_question").value;
      if Truthy(question) {
        return Ask(question);
      }
      a := Proceed(required.value);
    }

    /** The rest of `run` once the intent is understood: planning and operations, the
        debate or its fallback, and the delivery; any error fails the run, and a run that
        does not fail had every call complete. */
    method Execute(active: seq<Value>, now: nat) returns (result: RunResult)
      requires Valid() && Progress(emitted)
      modifies this, memory
      ensures memory == old(memory) && Valid() && old(emitted) < emitted
      ensures Kept(old(memory.State()), memory.State()) && old(called) <= called
      ensures !result.ClarificationNeeded? && Settled(emitted, result)
      ensures !result.Failed? ==> AllReturned(roster, |old(called)|, |called|)
      ensures result.Finished? ==> result.snapshot == memory.State()
    {
      var err := Prepare(active);
      if err.Some? {
        result := Abort(err.value);
        return;
      }
      ghost var s1 := memory.State();
      var revisions, approved;
      err, revisions, approved := Deliberate(active, now);
      if err.Some? {
        result := Abort(err.value);
        return;
      }
      ghost var s2 := memory.State();
      KeptTransitive(old(memory.State()), s1, s2);
      result := Deliver(active, now);
      KeptTransitive(old(memory.State()), s2, memory.State());
    }

    /** `run(command, onEvent, {role, images})`: the intent analysis, then either the
        clarification question that halts the run or the rest of the run. The run halts
        exactly when the intent agent's answer could be read and carries a truthy question,
        and the halt reports that question; a run that does not fail had every call complete. */
    method Run(command: string, role: string, images: seq<Value>, now: nat) returns (result: RunResult)
      modifies this
      ensures fresh(memory) && Valid()
      ensures memory.userIntent == ActiveCommand(command, role) && memory.images == images
      ensures memory.financialChecks == [] && memory.status in {Planning, Revising}
      ensures old(called) < called && called[|old(called)|] == "intent"
      ensures |emitted| >= 2 && emitted[0] == Timeline("Intent Analyzer Agent", "Thinking...", Pending)
      ensures Settled(emitted, result)
      ensures var o := roster(|old(called)|);
        Field(o, "constraints").Threw? ==>
          result == Failed(Field(o, "constraints").message) && called == old(called) + ["intent"]
          && emitted == [Timeline("Intent Analyzer Agent", "Thinking...", Pending)] + ErrorEvents(result.message)
      ensures var o := roster(|old(called)|);
        result.ClarificationNeeded? <==> Understood(o) && Truthy(Question(o))
      ensures var o := roster(|old(called)|);
        result.ClarificationNeeded? ==>
          Understood(o) && result.question == Question(o) && |emitted| == 3
          && called == old(called) + ["intent"] && memory.agentOutputs == map[]
      ensures !result.Failed? ==> AllReturned(roster, |old(called)|, |called|)
      ensures result.Finished? ==> result.snapshot == memory.State()
    {
      ghost var c0 := called;
      var analysis := Begin(command, role, images);
      match analysis
      case Broken(message) =>
        result := Abort(message);
      case Ask(question) =>
        EndWith(emitted, Clarification(question));
        Emit(Clarification(question));
        result := ClarificationNeeded(question);
      case Proceed(active) =>
        ghost var c1 := called;
        result := Execute(active, now);
        if !result.Failed? {
          AllReturnedJoin(roster, |c0|, |c1|, |called|);
        }
    }

    /** The opening of `run`: a fresh memory holding the command and the images, and the
        intent analysis. Its decision is read off the intent agent's answer exactly as
        `Analyze` states; a run that goes on had that one call complete. */
    method Begin(command: string, role: string, images: seq<Value>) returns (a: Analysis)
      modifies this
      ensures fresh(memory) && Valid() && called == old(called) + ["intent"]
      ensures memory.userIntent == ActiveCommand(command, role) && memory.images == images
      ensures memory.financialChecks == [] && memory.status == Planning && memory.agentOutputs == map[]
      ensures |emitted| >= 1 && emitted[0] == Timeline("Intent Analyzer Agent", "Thinking...", Pending)
      ensures var o := roster(|old(called)|);
        Field(o, "constraints").Threw? ==>
          a == Broken(Field(o, "constraints").message) && emitted == [Timeline("Intent Analyzer Agent", "Thinking...", Pending)]
      ensures var o := roster(|old(called)|);
        (a.Ask? <==> Understood(o) && Truthy(Question(o))) && (a.Ask? ==> a.question == Question(o) && |emitted| == 2)
      ensures Progress(emitted)
      ensures !a.Broken? ==> AllReturned(roster, |old(called)|, |called|)
    {
      ghost var c0 := called;
      Start(command, role, images);
      a := Analyze();
      if !a.Broken? {
        OneReturned(roster, |c0|);
      }
    }
  }
}
