/** Collectable objects of the Lua heap and the references between them
    (lua-5.1/lobject.h, lua-5.1/lstate.h). */
module LuaObjects {

  /** The address of a collectable object. */
  type Ref = nat

  datatype Option<+T> = None | Some(value: T)

  /** A tagged value: nil, a value that is not collectable, or a reference. */
  datatype Value = Nil | Plain(n: int) | Obj(ref: Ref)

  /** An entry of the hash part of a table. An entry whose value is nil is empty. */
  datatype Node = Node(key: Value, val: Value)

  /** Where an upvalue lives: in a slot of a thread's stack, or in itself. */
  datatype Cell = Open(thread: Ref, level: nat) | Closed(value: Value)

  datatype Object =
    | Str(hash: nat)
    | Udata(metatable: Option<Ref>, env: Ref)
    | UpVal(v: Cell)
    | CClosure(env: Ref, upvalue: seq<Value>)
    | LClosure(env: Ref, p: Ref, upvals: seq<Ref>)
    | Table(metatable: Option<Ref>, arr: seq<Value>, node: seq<Node>)
    | Thread(gt: Value, stack: seq<Value>, openupval: seq<Ref>)
    | Proto(source: Option<Ref>, k: seq<Value>, upvalues: seq<Option<Ref>>,
            protos: seq<Option<Ref>>, locvars: seq<Option<Ref>>)

  type Heap = map<Ref, Object>

  predicate IsOpen(h: Heap, o: Ref) {
    o in h && h[o].UpVal? && h[o].v.Open?
  }

  /** The kinds of object that wait on a gray list. */
  predicate Listable(b: Object) {
    b.CClosure? || b.LClosure? || b.Table? || b.Thread? || b.Proto?
  }

  /** The value an upvalue stands for: `*uv->v` in the source. */
  function UpValue(h: Heap, c: Cell): Value {
    match c
    case Closed(v) => v
    case Open(th, level) =>
      if th in h && h[th].Thread? && level < |h[th].stack| then h[th].stack[level] else Nil
  }

  ghost predicate HoldsEntry(node: seq<Node>, r: Ref) {
    exists i :: 0 <= i < |node| && node[i].val != Nil && (node[i].key == Obj(r) || node[i].val == Obj(r))
  }

  /** An object with this contents holds a reference to `r` that a program can follow. */
  ghost predicate Holds(h: Heap, b: Object, r: Ref) {
    match b
    case Str(_) => false
    case Udata(mt, env) => mt == Some(r) || env == r
    case UpVal(c) => UpValue(h, c) == Obj(r)
    case CClosure(env, up) => env == r || Obj(r) in up
    case LClosure(env, p, up) => env == r || p == r || r in up
    case Table(mt, arr, node) => mt == Some(r) || Obj(r) in arr || HoldsEntry(node, r)
    case Thread(gt, stack, _) => gt == Obj(r) || Obj(r) in stack
    case Proto(src, k, up, p, lv) =>
      src == Some(r) || Obj(r) in k || Some(r) in up || Some(r) in p || Some(r) in lv
  }

  ghost predicate PointsTo(h: Heap, o: Ref, r: Ref) {
    o in h && Holds(h, h[o], r)
  }

  /** A chain of references that starts at a root. */
  ghost predicate IsPath(h: Heap, roots: set<Ref>, path: seq<Ref>) {
    && |path| > 0
    && path[0] in roots
    && forall i :: 0 < i < |path| ==> PointsTo(h, path[i-1], path[i])
  }

  ghost predicate Reachable(h: Heap, roots: set<Ref>, o: Ref) {
    exists path :: IsPath(h, roots, path) && path[|path|-1] == o
  }

  ghost predicate ClosedUnder(h: Heap, s: set<Ref>) {
    forall o, r :: o in s && PointsTo(h, o, r) ==> r in s
  }

  lemma RootReachable(h: Heap, roots: set<Ref>, o: Ref)
    requires o in roots
    ensures Reachable(h, roots, o)
  {
    assert IsPath(h, roots, [o]) && [o][0] == o;
  }

  lemma StepReachable(h: Heap, roots: set<Ref>, o: Ref, r: Ref)
    requires Reachable(h, roots, o) && PointsTo(h, o, r)
    ensures Reachable(h, roots, r)
  {
    var path :| IsPath(h, roots, path) && path[|path|-1] == o;
    var longer := path + [r];
    assert forall i :: 0 < i < |longer| ==> PointsTo(h, longer[i-1], longer[i]);
    assert IsPath(h, roots, longer) && longer[|longer|-1] == r;
  }

  /** A set that holds the roots and follows every reference holds all that is reachable. */
  lemma {:induction false} PathStaysInside(h: Heap, roots: set<Ref>, s: set<Ref>, path: seq<Ref>)
    requires roots <= s && ClosedUnder(h, s) && IsPath(h, roots, path)
    ensures path[|path|-1] in s
  {
    if |path| > 1 {
      var init := path[..|path|-1];
      assert IsPath(h, roots, init);
      PathStaysInside(h, roots, s, init);
      assert PointsTo(h, path[|path|-2], path[|path|-1]);
    }
  }

  lemma ReachableInside(h: Heap, roots: set<Ref>, s: set<Ref>, o: Ref)
    requires roots <= s && ClosedUnder(h, s) && Reachable(h, roots, o)
    ensures o in s
  {
    var path :| IsPath(h, roots, path) && path[|path|-1] == o;
    PathStaysInside(h, roots, s, path);
  }
}
