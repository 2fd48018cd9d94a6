/** The shared run state (backend/src/core/Memory.js): the user intent, the extracted
    constraints, the plan, every agent's artifacts, the append-only revision and
    financial-check logs, the attached images and the run status. Timestamps from the
    clock are parameters. */
module SharedMemory {
  import opened Js

  datatype Status = Initialized | Planning | Executing | Revising | Completed

  /** `{timestamp, from, to, reason, resolved}` */
  datatype RevisionRequest = RevisionRequest(timestamp: int, from: string, to: Value, reason: string, resolved: bool)

  /** `{timestamp, decision, reason}` */
  datatype FinancialCheck = FinancialCheck(timestamp: int, decision: Value, reason: Value)

  /** A copy of the whole state, as `getSnapshot` hands it out. */
  datatype Snapshot = Snapshot(
    userIntent: string,
    constraints: seq<(string, Value)>,
    executionPlan: Value,
    agentOutputs: map<string, map<string, Value>>,
    revisionRequests: seq<RevisionRequest>,
    financialChecks: seq<FinancialCheck>,
    images: seq<Value>,
    status: Status)

  /** The state of a freshly constructed Memory. */
  const EmptySnapshot := Snapshot("", [], Arr([]), map[], [], [], [], Initialized)

  /** `agent_outputs[agent]?.[key] || null` */
  function ArtifactOf(outputs: map<string, map<string, Value>>, agent: string, key: string): (v: Value)
    ensures agent !in outputs || key !in outputs[agent] ==> v == Null
    ensures agent in outputs && key in outputs[agent] && Truthy(outputs[agent][key]) ==> v == outputs[agent][key]
    ensures agent in outputs && key in outputs[agent] && !Truthy(outputs[agent][key]) ==> v == Null
  {
    if agent in outputs && key in outputs[agent] && Truthy(outputs[agent][key]) then outputs[agent][key] else Null
  }

  /** `agent_outputs` after `agent_outputs[agent][key] = data`. */
  function Store(outputs: map<string, map<string, Value>>, agent: string, key: string, data: Value): map<string, map<string, Value>>
  {
    outputs[agent := (if agent in outputs then outputs[agent] else map[])[key := data]]
  }

  class Memory {
    var userIntent: string
    var constraints: seq<(string, Value)>
    var executionPlan: Value
    var agentOutputs: map<string, map<string, Value>>
    var revisionRequests: seq<RevisionRequest>
    var financialChecks: seq<FinancialCheck>
    var images: seq<Value>
    var status: Status

    /** The constraints form a JavaScript object. */
    ghost predicate Valid()
      reads this
    {
      UniqueKeys(constraints)
    }

    ghost function State(): Snapshot
      reads this
    {
      Snapshot(userIntent, constraints, executionPlan, agentOutputs, revisionRequests, financialChecks, images, status)
    }

    constructor ()
      ensures Valid() && State() == EmptySnapshot
    {
      userIntent := "";
      constraints := [];
      executionPlan := Arr([]);
      agentOutputs := map[];
      revisionRequests := [];
      financialChecks := [];
      images := [];
      status := Initialized;
    }

    /** `init`: the command becomes the intent and the run is planning. */
    method Init(command: string)
      requires Valid()
      modifies this
      ensures Valid()
      ensures State() == old(State()).(userIntent := command, status := Planning)
    {
      userIntent := command;
      status := Planning;
    }

    /** `updateConstraints`: a right-biased merge; keys absent from the argument keep their values. */
    method UpdateConstraints(update: seq<(string, Value)>)
      requires Valid()
      modifies this
      ensures Valid()
      ensures State() == old(State()).(constraints := Merge(old(constraints), update))
      ensures Keys(old(constraints)) <= Keys(constraints)
      ensures UniqueKeys(update) ==>
        forall k :: Get(constraints, k) == if k in Keys(update) then Get(update, k) else Get(old(constraints), k)
    {
      MergeKeys(constraints, update);
      if UniqueKeys(update) {
        forall k ensures Get(Merge(constraints, update), k) == if k in Keys(update) then Get(update, k) else Get(constraints, k) {
          MergeGet(constraints, update, k);
        }
      }
      constraints := Merge(constraints, update);
    }

    /** `setPlan` */
    method SetPlan(plan: Value)
      requires Valid()
      modifies this
      ensures Valid()
      ensures State() == old(State()).(executionPlan := plan)
    {
      executionPlan := plan;
    }

    /** `setImages` */
    method SetImages(newImages: seq<Value>)
      requires Valid()
      modifies this
      ensures Valid()
      ensures State() == old(State()).(images := newImages)
    {
      images := newImages;
    }

    /** `saveArtifact`: `agent_outputs[agent][key] = data`, creating the agent's entry when
        missing; every other agent/key pair is unchanged. */
    method SaveArtifact(agent: string, key: string, data: Value)
      requires Valid()
      modifies this
      ensures Valid()
      ensures agentOutputs.Keys == old(agentOutputs.Keys) + {agent}
      ensures key in agentOutputs[agent] && agentOutputs[agent][key] == data
      ensures agentOutputs[agent].Keys == (if agent in old(agentOutputs) then old(agentOutputs[agent].Keys) else {}) + {key}
      ensures forall a, k :: a in old(agentOutputs) && k in old(agentOutputs[a]) && (a, k) != (agent, key) ==>
        a in agentOutputs && k in agentOutputs[a] && agentOutputs[a][k] == old(agentOutputs[a][k])
      ensures agentOutputs == Store(old(agentOutputs), agent, key, data)
      ensures State() == old(State()).(agentOutputs := agentOutputs)
    {
      agentOutputs := Store(agentOutputs, agent, key, data);
    }

    /** `addRevisionRequest`: one unresolved entry is appended and the run is revising. */
    method AddRevisionRequest(now: int, from: string, to: Value, reason: string)
      requires Valid()
      modifies this
      ensures Valid()
      ensures revisionRequests == old(revisionRequests) + [RevisionRequest(now, from, to, reason, false)]
      ensures State() == old(State()).(revisionRequests := revisionRequests, status := Revising)
    {
      revisionRequests := revisionRequests + [RevisionRequest(now, from, to, reason, false)];
      status := Revising;
    }

    /** `logFinancialCheck`: one entry is appended; nothing else, the status included, changes. */
    method LogFinancialCheck(now: int, decision: Value, reason: Value)
      requires Valid()
      modifies this
      ensures Valid()
      ensures financialChecks == old(financialChecks) + [FinancialCheck(now, decision, reason)]
      ensures State() == old(State()).(financialChecks := financialChecks)
    {
      financialChecks := financialChecks + [FinancialCheck(now, decision, reason)];
    }

    /** `getSnapshot`: a copy of every field; the copy is a value, so nothing done to it
        reaches the stored state. */
    method GetSnapshot() returns (s: Snapshot)
      ensures s.userIntent == userIntent && s.constraints == constraints && s.executionPlan == executionPlan
      ensures s.agentOutputs == agentOutputs && s.revisionRequests == revisionRequests
      ensures s.financialChecks == financialChecks && s.images == images && s.status == status
    {
      s := Snapshot(userIntent, constraints, executionPlan, agentOutputs, revisionRequests, financialChecks, images, status);
    }

    /** `getArtifact`: the stored value, or null when the agent or key is missing or the value is falsy. */
    method GetArtifact(agent: string, key: string) returns (v: Value)
      ensures v == ArtifactOf(agentOutputs, agent, key)
      ensures Truthy(v) <==> agent in agentOutputs && key in agentOutputs[agent] && Truthy(agentOutputs[agent][key])
    {
      v := Null;
      if agent in agentOutputs && key in agentOutputs[agent] && Truthy(agentOutputs[agent][key]) {
        v := agentOutputs[agent][key];
      }
    }
  }

  /** Saving and then reading back an artifact gives the saved value when it is truthy and
      null otherwise; reading any other pair gives what it gave before. */
  lemma SaveThenRead(outputs: map<string, map<string, Value>>, agent: string, key: string, data: Value, a: string, k: string)
    ensures ArtifactOf(Store(outputs, agent, key, data), a, k) == if (a, k) == (agent, key) then (if Truthy(data) then data else Null) else ArtifactOf(outputs, a, k)
  {
  }
}
