/** The recursive `findFile` search over a generated file tree. The same function is written
    out twice in the repository (backend/src/core/Orchestrator.js and
    src/components/execution/ArtifactCanvas.jsx); it is defined once here. */
module FileTree {
  import opened Js

  /** What `findFile` ends with: a truthy value, `null`, or a TypeError from reading a
      property of `null` somewhere in the tree. */
  datatype Lookup = Found(v: Value) | NotFound | Throws(message: string)

  /** The values `for (const key in obj)` visits, in order. Strings, numbers and booleans
      have no entries the search could descend into. */
  function Children(obj: Value): (cs: seq<Value>)
    ensures forall c :: c in cs ==> c < obj
  {
    match obj
    case Arr(items) => items
    case Obj(fields) => FieldValues(obj, fields)
    case _ => []
  }

  function FieldValues(ghost obj: Value, fields: seq<(string, Value)>): (vs: seq<Value>)
    requires obj.Obj? && fields <= obj.fields
    ensures |vs| == |fields|
    ensures forall i :: 0 <= i < |vs| ==> vs[i] == fields[i].1
    ensures forall c :: c in vs ==> c < obj
  {
    if fields == [] then []
    else
      assert fields[|fields| - 1] == obj.fields[|fields| - 1];
      FieldValues(obj, fields[..|fields| - 1]) + [fields[|fields| - 1].1]
  }

  /** `findFile(obj, name)`: `obj[name]` when truthy, otherwise the first truthy result of
      the search in the children whose `typeof` is 'object', in key order. */
  function FindFile(obj: Value, name: string): (r: Lookup)
    ensures r.Found? ==> Truthy(r.v)
    decreases obj, 1
  {
    match Prop(obj, name)
    case Threw(m) => Throws(m)
    case Returned(v) => if Truthy(v) then Found(v) else FindIn(obj, Children(obj), name)
  }

  /** The `for ... in` loop of `findFile` over the children `cs`, a suffix of `Children(parent)`. */
  function FindIn(ghost parent: Value, cs: seq<Value>, name: string): (r: Lookup)
    requires forall c :: c in cs ==> c < parent
    ensures r.Found? ==> Truthy(r.v)
    decreases parent, 0, |cs|
  {
    if cs == [] then NotFound
    else
      assert cs[0] in cs && forall c :: c in cs[1..] ==> c in cs;
      if !IsObjectType(cs[0]) then FindIn(parent, cs[1..], name)
      else
      match FindFile(cs[0], name)
      case NotFound => FindIn(parent, cs[1..], name)
      case other => other
  }

  /** One entry of the depth-first listing of a tree. */
  datatype Step = Hit(v: Value) | Crash(message: string)

  /** The depth-first, key-ordered listing of every node the search would reach if it never
      stopped: each node's truthy `name` entry, or the error reading it raises. */
  function Walk(obj: Value, name: string): seq<Step>
    decreases obj, 1
  {
    match Prop(obj, name)
    case Threw(m) => [Crash(m)]
    case Returned(v) => (if Truthy(v) then [Hit(v)] else []) + WalkAll(obj, Children(obj), name)
  }

  function WalkAll(ghost parent: Value, cs: seq<Value>, name: string): seq<Step>
    requires forall c :: c in cs ==> c < parent
    decreases parent, 0, |cs|
  {
    if cs == [] then []
    else
      assert cs[0] in cs && forall c :: c in cs[1..] ==> c in cs;
      (if IsObjectType(cs[0]) then Walk(cs[0], name) else []) + WalkAll(parent, cs[1..], name)
  }

  /** What a search that stops at the first entry of a listing reports. */
  function First(steps: seq<Step>): Lookup
  {
    if steps == [] then NotFound
    else match steps[0]
      case Hit(v) => Found(v)
      case Crash(m) => Throws(m)
  }

  lemma FirstOfAppend(a: seq<Step>, b: seq<Step>)
    ensures First(a + b) == if a == [] then First(b) else First(a)
  {
    if a != [] { assert (a + b)[0] == a[0]; }
  }

  /** The short-circuiting search finds exactly the first entry of the full depth-first
      listing: the truthy value nearest the root in pre-order, or the first crash before it. */
  lemma {:induction false} FindFileIsFirstOfWalk(obj: Value, name: string)
    ensures FindFile(obj, name) == First(Walk(obj, name))
    decreases obj, 1
  {
    match Prop(obj, name)
    case Threw(m) =>
    case Returned(v) =>
      if Truthy(v) {
        FirstOfAppend([Hit(v)], WalkAll(obj, Children(obj), name));
      } else {
        FindInIsFirstOfWalkAll(obj, Children(obj), name);
        assert Walk(obj, name) == [] + WalkAll(obj, Children(obj), name);
      }
  }

  lemma {:induction false} FindInIsFirstOfWalkAll(parent: Value, cs: seq<Value>, name: string)
    requires forall c :: c in cs ==> c < parent
    ensures FindIn(parent, cs, name) == First(WalkAll(parent, cs, name))
    decreases parent, 0, |cs|
  {
    if cs != [] {
      assert cs[0] in cs && forall c :: c in cs[1..] ==> c in cs;
      FindInIsFirstOfWalkAll(parent, cs[1..], name);
      if IsObjectType(cs[0]) {
        FindFileIsFirstOfWalk(cs[0], name);
        FirstOfAppend(Walk(cs[0], name), WalkAll(parent, cs[1..], name));
        WalkEmptyIsNotFound(cs[0], name);
      } else {
        FirstOfAppend([], WalkAll(parent, cs[1..], name));
      }
    }
  }

  /** A node with an entry in its listing is never reported as not found. */
  lemma WalkEmptyIsNotFound(obj: Value, name: string)
    ensures First(Walk(obj, name)) == NotFound <==> Walk(obj, name) == []
  {
  }

  /** `findFile(root, 'styles.css') || findFile(root, 'style.css') || findFile(root, 'App.css')`:
      the first stylesheet name that is found wins; an error in a lookup that runs ends the chain. */
  function Stylesheet(root: Value): (r: Lookup)
    ensures r.Found? ==> Truthy(r.v)
    ensures r.NotFound? <==>
      (FindFile(root, "styles.css").NotFound? && FindFile(root, "style.css").NotFound? && FindFile(root, "App.css").NotFound?)
  {
    match FindFile(root, "styles.css")
    case NotFound =>
      (match FindFile(root, "style.css")
       case NotFound => FindFile(root, "App.css")
       case other => other)
    case other => other
  }
}
