/** The persistent business profile (backend/src/core/BusinessState.js): a JSON object kept in
    memory and mirrored to a state file. The file is abstracted to what a load finds there
    (`Disk`) and whether a write succeeds (`writable`); the clock reading is a parameter. */
module BusinessStore {
  import opened Js

  /** How many decisions `addDecision` keeps. */
  const DecisionLimit: nat := 50

  /** `INITIAL_STATE` */
  const InitialState := Obj([
    ("business_profile", Obj([])), ("metrics", Obj([])), ("priorities", Arr([])),
    ("active_issues", Arr([])), ("ongoing_projects", Arr([])), ("recent_decisions", Arr([])),
    ("last_updated", Str(""))])

  /** What a load finds: no file, a file that cannot be read or parsed, or the parsed contents. */
  datatype Disk = Missing | Unreadable | Holds(content: Value)

  /** `this.state.last_updated = now`: an object takes the stamp in place (an existing key keeps
      its position); on anything else the assignment is lost with the error `save` catches. */
  function Stamp(state: Value, now: string): (r: Value)
    ensures state.Obj? ==> r.Obj? && Get(r.fields, "last_updated") == Str(now)
    ensures state.Obj? ==> forall k :: k != "last_updated" ==> Get(r.fields, k) == Get(state.fields, k)
    ensures !state.Obj? ==> r == state
  {
    if state.Obj? then
      SetKeepsOthers(state.fields, "last_updated", Str(now));
      Obj(Set(state.fields, "last_updated", Str(now)))
    else state
  }

  /** `save`: the state and the file after stamping and writing. Null and primitive states
      make the stamp throw before the write; an array takes no modelled property but is
      written; a failed write leaves the file as it was. */
  function Saved(state: Value, disk: Disk, now: string, writable: bool): (r: (Value, Disk))
    ensures r.0 == Stamp(state, now)
    ensures (state.Obj? || state.Arr?) && writable ==> r.1 == Holds(JsonCopy(r.0))
    ensures !((state.Obj? || state.Arr?) && writable) ==> r.1 == disk
  {
    if (state.Obj? || state.Arr?) && writable then (Stamp(state, now), Holds(JsonCopy(Stamp(state, now))))
    else (Stamp(state, now), disk)
  }

  /** `load`: the parsed file, or a copy of the initial profile (saved right away when there
      was no file). */
  function Loaded(disk: Disk, now: string, writable: bool): (r: (Value, Disk))
    ensures disk.Holds? ==> r == (disk.content, disk)
    ensures disk.Unreadable? ==> r == (InitialState, disk)
    ensures disk.Missing? ==> r.0 == Stamp(InitialState, now) && Get(r.0.fields, "last_updated") == Str(now)
    ensures disk.Missing? && writable ==> r.1 == Holds(JsonCopy(r.0))
  {
    match disk
    case Holds(v) => (v, disk)
    case Unreadable => (InitialState, disk)
    case Missing => Saved(InitialState, disk, now, writable)
  }

  /** `{ ...state, ...updates }` */
  function Applied(state: Value, updates: Value): Value
  {
    Obj(Merge(Spread(state), Spread(updates)))
  }

  /** `update(updates)`: the state (loaded first when falsy), shallowly merged with the
      updates, then saved. */
  function Updated(state: Value, disk: Disk, updates: Value, now: string, writable: bool): (r: (Value, Disk))
    ensures r.0.Obj? && Get(r.0.fields, "last_updated") == Str(now)
  {
    var before := if Truthy(state) then (state, disk) else Loaded(disk, now, writable);
    Saved(Applied(before.0, updates), before.1, now, writable)
  }

  /** An update reads as the updates on the keys they name and as the old state on every
      other key. */
  lemma UpdateIsRightBiased(state: Value, updates: Value, k: string)
    requires UniqueKeys(Spread(updates))
    ensures Get(Applied(state, updates).fields, k) ==
      if k in Keys(Spread(updates)) then Get(Spread(updates), k) else Get(Spread(state), k)
  {
    MergeGet(Spread(state), Spread(updates), k);
  }

  /** The error `[decision, ...x]` raises when `x` cannot be iterated. */
  const NotIterable := "this.state.recent_decisions is not iterable"

  /** The elements `...this.state.recent_decisions` spreads: an array's items, or a string's
      characters. */
  function Decisions(state: Value): (r: Outcome<seq<Value>>)
    ensures r.Threw? <==> !(Prop(state, "recent_decisions").Returned?
                            && (Prop(state, "recent_decisions").value.Arr? || Prop(state, "recent_decisions").value.Str?))
    ensures r.Returned? && Prop(state, "recent_decisions").value.Arr? ==> r.value == Prop(state, "recent_decisions").value.items
  {
    match Prop(state, "recent_decisions")
    case Threw(m) => Threw(m)
    case Returned(v) =>
      match v
      case Arr(items) => Returned(items)
      case Str(s) => Returned(seq(|s|, i requires 0 <= i < |s| => Str([s[i]])))
      case _ => Threw(NotIterable)
  }

  /** `[decision, ...recent].slice(0, 50)`: the new decision first, then the older ones in
      their order, at most fifty in all. */
  function PrependCapped(decision: Value, recent: seq<Value>): (r: seq<Value>)
    ensures |r| == if |recent| + 1 < DecisionLimit then |recent| + 1 else DecisionLimit
    ensures r[0] == decision
    ensures forall i :: 1 <= i < |r| ==> r[i] == recent[i - 1]
  {
    var all := [decision] + recent;
    if |all| <= DecisionLimit then all else all[..DecisionLimit]
  }

  /** The fifty newest entries of a newest-first log. */
  function Newest(log: seq<Value>): seq<Value>
  {
    if |log| <= DecisionLimit then log else log[..DecisionLimit]
  }

  /** Capping at every insertion keeps exactly the fifty newest decisions ever added: the
      list never depends on entries that were dropped. */
  lemma {:induction false} PrependCappedIsNewest(decision: Value, log: seq<Value>)
    ensures PrependCapped(decision, Newest(log)) == Newest([decision] + log)
  {
    var r := PrependCapped(decision, Newest(log));
    var n := Newest([decision] + log);
    assert |r| == |n|;
    forall i | 0 <= i < |r| ensures r[i] == n[i] {
      if i > 0 {
        assert r[i] == Newest(log)[i - 1] == log[i - 1];
      }
    }
  }

  class BusinessState {
    /** Whether writes to the state file succeed. */
    const writable: bool
    var state: Value
    var disk: Disk

    /** `new BusinessState()`: the state starts null and is loaded at once. */
    constructor (disk: Disk, writable: bool, now: string)
      ensures this.writable == writable
      ensures (state, this.disk) == Loaded(disk, now, writable)
    {
      this.writable := writable;
      var loaded := Loaded(disk, now, writable);
      state := loaded.0;
      this.disk := loaded.1;
    }

    /** `load` */
    method Load(now: string) returns (v: Value)
      modifies this
      ensures (state, disk) == Loaded(old(disk), now, writable) && v == state
    {
      match disk {
        case Holds(content) =>
          state := content;
        case Unreadable =>
          state := InitialState;
        case Missing =>
          state := InitialState;
          Save(now);
      }
      v := state;
    }

    /** `save` */
    method Save(now: string)
      modifies this
      ensures (state, disk) == Saved(old(state), old(disk), now, writable)
    {
      if state.Obj? {
        state := Obj(Set(state.fields, "last_updated", Str(now)));
      }
      if (state.Obj? || state.Arr?) && writable {
        disk := Holds(JsonCopy(state));
      }
    }

    /** `get`: the state, loaded first when it is falsy; a truthy state is returned as is. */
    method Fetch(now: string) returns (v: Value)
      modifies this
      ensures Truthy(old(state)) ==> v == old(state) && state == old(state) && disk == old(disk)
      ensures !Truthy(old(state)) ==> (state, disk) == Loaded(old(disk), now, writable)
      ensures v == state
    {
      if !Truthy(state) {
        var loaded := Load(now);
      }
      v := state;
    }

    /** `update(updates)`: the (loaded) state, shallowly merged with the updates, stamped and
        saved. */
    method Update(updates: Value, now: string) returns (r: Value)
      modifies this
      ensures (state, disk) == Updated(old(state), old(disk), updates, now, writable)
      ensures r == state
    {
      if !Truthy(state) {
        var loaded := Load(now);
      }
      state := Applied(state, updates);
      Save(now);
      r := state;
    }

    /** `updateMetrics(newMetrics)`: the metrics merged with the new ones, through `update`.
        The state is read without a load, so a null state throws. */
    method UpdateMetrics(newMetrics: Value, now: string) returns (r: Outcome<Value>)
      modifies this
      ensures Prop(old(state), "metrics").Threw? ==>
        r == Threw(Prop(old(state), "metrics").message) && state == old(state) && disk == old(disk)
      ensures Prop(old(state), "metrics").Returned? ==>
        var metrics := Obj(Merge(Spread(Prop(old(state), "metrics").value), Spread(newMetrics)));
        (state, disk) == Updated(old(state), old(disk), Obj([("metrics", metrics)]), now, writable)
        && r == Returned(state)
    {
      var metrics := Prop(state, "metrics");
      if metrics.Threw? {
        return Threw(metrics.message);
      }
      var v := Update(Obj([("metrics", Obj(Merge(Spread(metrics.value), Spread(newMetrics))))]), now);
      r := Returned(v);
    }

    /** `addDecision(decision)`: the decision goes first in the capped log, through `update`. */
    method AddDecision(decision: Value, now: string) returns (r: Outcome<Value>)
      modifies this
      ensures Decisions(old(state)).Threw? ==>
        r == Threw(Decisions(old(state)).message) && state == old(state) && disk == old(disk)
      ensures Decisions(old(state)).Returned? ==>
        var log := Arr(PrependCapped(decision, Decisions(old(state)).value));
        (state, disk) == Updated(old(state), old(disk), Obj([("recent_decisions", log)]), now, writable)
        && r == Returned(state)
    {
      var recent := Decisions(state);
      if recent.Threw? {
        return Threw(recent.message);
      }
      var v := Update(Obj([("recent_decisions", Arr(PrependCapped(decision, recent.value)))]), now);
      r := Returned(v);
    }
  }

  /** `updateMetrics` changes the metrics, which become the old ones overridden by the new,
      restamps the profile, and leaves every other top-level field as it was. */
  lemma MetricsUpdateKeepsOthers(state: Value, newMetrics: Value, now: string, disk: Disk, writable: bool, k: string)
    requires state.Obj? && UniqueKeys(Spread(newMetrics))
    ensures var metrics := Obj(Merge(Spread(Get(state.fields, "metrics")), Spread(newMetrics)));
      var after := Updated(state, disk, Obj([("metrics", metrics)]), now, writable).0;
      after.Obj?
      && Get(after.fields, "last_updated") == Str(now)
      && Get(after.fields, "metrics") == metrics
      && (k != "metrics" && k != "last_updated" ==> Get(after.fields, k) == Get(state.fields, k))
      && (k in Keys(Spread(newMetrics)) ==> Get(metrics.fields, k) == Get(Spread(newMetrics), k))
  {
    var metrics := Obj(Merge(Spread(Get(state.fields, "metrics")), Spread(newMetrics)));
    var update := Obj([("metrics", metrics)]);
    UpdatedObject(state, disk, update, now, writable);
    assert Keys(Spread(update)) == ["metrics"];
    UpdateIsRightBiased(state, update, k);
    UpdateIsRightBiased(state, update, "metrics");
    MergeGet(Spread(Get(state.fields, "metrics")), Spread(newMetrics), k);
  }

  /** An object state is updated without a load: the merge, stamped. */
  lemma UpdatedObject(state: Value, disk: Disk, updates: Value, now: string, writable: bool)
    requires state.Obj?
    ensures Updated(state, disk, updates, now, writable).0 == Stamp(Applied(state, updates), now)
  {
    assert Truthy(state);
  }

  /** `addDecision` puts the decision first in the stored log and keeps at most fifty. */
  lemma AddDecisionLog(state: Value, decision: Value, now: string, disk: Disk, writable: bool)
    requires Decisions(state).Returned?
    ensures var log := Arr(PrependCapped(decision, Decisions(state).value));
      var after := Updated(state, disk, Obj([("recent_decisions", log)]), now, writable).0;
      after.Obj? && Get(after.fields, "recent_decisions") == log
      && |log.items| <= DecisionLimit && log.items[0] == decision
  {
    var log := Arr(PrependCapped(decision, Decisions(state).value));
    var update := Obj([("recent_decisions", log)]);
    assert state.Obj?;
    UpdatedObject(state, disk, update, now, writable);
    assert Keys(Spread(update)) == ["recent_decisions"];
    UpdateIsRightBiased(state, update, "recent_decisions");
  }
}
