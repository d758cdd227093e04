/**
 The structure checks of portfolio/event_envelope.py over a heap of shared, possibly cyclic containers.

 `ValidateJsonStructure` and `ContainsNul` keep the explicit stacks of the source.  They are proved against
 `Walk` (a recursive traversal) and against statements about every path through the object graph.
 */
module JsonStructure {
  import opened Prelude

  // A Python string is a sequence of code points; unlike Dafny's `char`, it may hold lone surrogates.
  type CodePoint = c: int | 0 <= c <= 0x10FFFF
  type Text = seq<CodePoint>

  /** `Opaque` is every value the walkers skip: integers, booleans, None.  `Ref` is a container's identity. */
  datatype Value = Str(text: Text) | Float(finite: bool) | Opaque | Ref(id: nat)

  datatype Container =
    | Dict(entries: seq<(Value, Value)>)
    | List(items: seq<Value>)

  // An identity without an entry is an empty list.
  type Heap = map<nat, Container>

  datatype Problem =
    | NulCharacter | InvalidUnicode | NonFiniteNumber | TooDeep | Circular | NonStringKey

  datatype Outcome = Valid | Invalid(problem: Problem)

  function At(heap: Heap, id: nat): Container {
    if id in heap then heap[id] else List([])
  }

  predicate HasNul(text: Text) { 0 in text }

  predicate HasSurrogate(text: Text) { exists c :: c in text && 0xD800 <= c <= 0xDFFF }

  function CheckText(text: Text): Outcome {
    if HasNul(text) then Invalid(NulCharacter)
    else if HasSurrogate(text) then Invalid(InvalidUnicode)
    else Valid
  }

  function CheckKey(key: Value): Outcome {
    if key.Str? then CheckText(key.text) else Invalid(NonStringKey)
  }

  function CheckKeys(entries: seq<(Value, Value)>): Outcome {
    if entries == [] then Valid
    else
      var front := CheckKeys(entries[..|entries| - 1]);
      if front.Invalid? then front else CheckKey(entries[|entries| - 1].0)
  }

  function Items(c: Container): seq<Value> {
    match c
    case List(items) => items
    case Dict(entries) => seq(|entries|, i requires 0 <= i < |entries| => entries[i].1)
  }

  function KeyOutcome(c: Container): Outcome {
    if c.Dict? then CheckKeys(c.entries) else Valid
  }

  // --------------------------------------------------------------- recursive traversal

  /** Checks `v`, found below `depth` containers whose identities are `active`. */
  function Walk(heap: Heap, v: Value, depth: int, active: set<nat>, maxDepth: int): Outcome
    decreases maxDepth - depth, 1, 0
  {
    match v
    case Str(text) => CheckText(text)
    case Float(finite) => if finite then Valid else Invalid(NonFiniteNumber)
    case Opaque => Valid
    case Ref(id) =>
      if depth + 1 > maxDepth then Invalid(TooDeep)
      else if id in active then Invalid(Circular)
      else
        var keys := KeyOutcome(At(heap, id));
        if keys.Invalid? then keys
        else WalkAll(heap, Items(At(heap, id)), depth + 1, active + {id}, maxDepth)
  }

  /** Children are visited last to first: the source pushes them in order and pops from the end. */
  function WalkAll(heap: Heap, vs: seq<Value>, depth: int, active: set<nat>, maxDepth: int): Outcome
    decreases maxDepth - depth, 2, |vs|
  {
    if vs == [] then Valid
    else
      var last := Walk(heap, vs[|vs| - 1], depth, active, maxDepth);
      if last.Invalid? then last else WalkAll(heap, vs[..|vs| - 1], depth, active, maxDepth)
  }

  // --------------------------------------------------------------- explicit stack

  datatype Frame = Frame(value: Value, parentDepth: int, exiting: bool)

  /** What the frames still on the stack will report. */
  ghost function Pending(heap: Heap, stack: seq<Frame>, active: set<nat>, maxDepth: int): Outcome {
    if stack == [] then Valid
    else
      var top, rest := stack[|stack| - 1], stack[..|stack| - 1];
      if top.exiting then
        Pending(heap, rest, if top.value.Ref? then active - {top.value.id} else active, maxDepth)
      else
        var here := Walk(heap, top.value, top.parentDepth, active, maxDepth);
        if here.Invalid? then here else Pending(heap, rest, active, maxDepth)
  }

  /** The containers whose exit frame is on the stack. */
  ghost function Exits(stack: seq<Frame>): set<nat> {
    set i | 0 <= i < |stack| && stack[i].exiting && stack[i].value.Ref? :: stack[i].value.id
  }

  /** Exit frames hold containers, and no container has two of them. */
  ghost predicate ExitsDistinct(stack: seq<Frame>) {
    && (forall i :: 0 <= i < |stack| && stack[i].exiting ==> stack[i].value.Ref?)
    && (forall i, j :: 0 <= i < j < |stack| && stack[i].exiting && stack[j].exiting
          ==> stack[i].value != stack[j].value)
  }

  /** The number of pops a value still costs; it bounds the loop on cyclic graphs too. */
  ghost function Cost(heap: Heap, v: Value, depth: int, maxDepth: int): nat
    decreases maxDepth - depth, 1, 0
  {
    if v.Ref? && depth + 1 <= maxDepth then 2 + CostAll(heap, Items(At(heap, v.id)), depth + 1, maxDepth) else 1
  }

  ghost function CostAll(heap: Heap, vs: seq<Value>, depth: int, maxDepth: int): nat
    decreases maxDepth - depth, 2, |vs|
  {
    if vs == [] then 0
    else CostAll(heap, vs[..|vs| - 1], depth, maxDepth) + Cost(heap, vs[|vs| - 1], depth, maxDepth)
  }

  ghost function StackCost(heap: Heap, stack: seq<Frame>, maxDepth: int): nat {
    if stack == [] then 0
    else
      var top := stack[|stack| - 1];
      StackCost(heap, stack[..|stack| - 1], maxDepth)
      + if top.exiting then 1 else Cost(heap, top.value, top.parentDepth, maxDepth)
  }

  ghost function Frames(vs: seq<Value>, depth: int): seq<Frame> {
    seq(|vs|, i requires 0 <= i < |vs| => Frame(vs[i], depth, false))
  }

  /** Pushing the children of a container schedules exactly `WalkAll` before the rest of the stack. */
  lemma {:induction false} PendingChildren(heap: Heap, base: seq<Frame>, vs: seq<Value>, depth: int, active: set<nat>,
                                           maxDepth: int)
    ensures Pending(heap, base + Frames(vs, depth), active, maxDepth)
         == var here := WalkAll(heap, vs, depth, active, maxDepth);
            if here.Invalid? then here else Pending(heap, base, active, maxDepth)
    ensures StackCost(heap, base + Frames(vs, depth), maxDepth)
         == StackCost(heap, base, maxDepth) + CostAll(heap, vs, depth, maxDepth)
    decreases |vs|
  {
    var stack := base + Frames(vs, depth);
    if vs == [] {
      assert stack == base;
    } else {
      var front := vs[..|vs| - 1];
      assert stack[..|stack| - 1] == base + Frames(front, depth);
      PendingChildren(heap, base, front, depth, active, maxDepth);
    }
  }

  lemma CheckKeysPrefix(entries: seq<(Value, Value)>, n: nat)
    requires n <= |entries|
    ensures CheckKeys(entries[..n]).Invalid? ==> CheckKeys(entries) == CheckKeys(entries[..n])
  {
    if n < |entries| {
      var front := entries[..|entries| - 1];
      assert front[..n] == entries[..n];
      CheckKeysPrefix(front, n);
    } else {
      assert entries[..n] == entries;
    }
  }

  /** On top of `base` are the entry values or the items, in order. */
  ghost predicate Schedules(c: Container, base: seq<Frame>, stack: seq<Frame>, depth: int) {
    match c
    case Dict(entries) =>
      && |stack| == |base| + |entries|
      && forall i :: 0 <= i < |entries| ==> stack[|base| + i] == Frame(entries[i].1, depth, false)
    case List(items) =>
      && |stack| == |base| + |items|
      && forall i :: 0 <= i < |items| ==> stack[|base| + i] == Frame(items[i], depth, false)
  }

  /** Checks the keys of a container while scheduling its children. */
  method PushChildren(c: Container, base: seq<Frame>, depth: int) returns (checked: Outcome, stack: seq<Frame>)
    ensures checked == KeyOutcome(c)
    ensures checked == Valid ==> stack == base + Frames(Items(c), depth)
    ensures checked == Valid ==> Schedules(c, base, stack, depth)
  {
    stack := base;
    match c {
      case Dict(entries) =>
        for i := 0 to |entries|
          invariant CheckKeys(entries[..i]) == Valid
          invariant stack == base + Frames(Items(c)[..i], depth)
        {
          assert entries[..i + 1][..i] == entries[..i];
          checked := CheckKey(entries[i].0);
          if checked.Invalid? {
            CheckKeysPrefix(entries, i + 1);
            return;
          }
          stack := stack + [Frame(entries[i].1, depth, false)];
        }
        assert entries[..|entries|] == entries;
      case List(items) =>
        for i := 0 to |items|
          invariant stack == base + Frames(items[..i], depth)
        {
          stack := stack + [Frame(items[i], depth, false)];
        }
    }
    assert Items(c)[..|Items(c)|] == Items(c);
    return Valid, stack;
  }

  /** What the rest of the traversal will report is what the whole of it must report. */
  ghost predicate Tracks(heap: Heap, stack: seq<Frame>, active: set<nat>, maxDepth: int, r: Outcome) {
    ExitsDistinct(stack) && active == Exits(stack) && Pending(heap, stack, active, maxDepth) == r
  }

  /** A value is popped: it decides the report, or it is a leaf and the rest of the stack decides. */
  lemma TracksValue(heap: Heap, stack: seq<Frame>, active: set<nat>, maxDepth: int, r: Outcome)
    requires stack != [] && !stack[|stack| - 1].exiting && Tracks(heap, stack, active, maxDepth, r)
    ensures var top, rest := stack[|stack| - 1], stack[..|stack| - 1];
            var here := Walk(heap, top.value, top.parentDepth, active, maxDepth);
            if here.Invalid? then r == here
            else !top.value.Ref? ==> Tracks(heap, rest, active, maxDepth, r)
                                     && StackCost(heap, rest, maxDepth) < StackCost(heap, stack, maxDepth)
  {
    ExitsAfterPop(stack);
  }

  /** An exit frame is popped: the container is no longer active. */
  lemma TracksExit(heap: Heap, stack: seq<Frame>, active: set<nat>, maxDepth: int, r: Outcome)
    requires stack != [] && stack[|stack| - 1].exiting && Tracks(heap, stack, active, maxDepth, r)
    ensures var top, rest := stack[|stack| - 1], stack[..|stack| - 1];
            && top.value.Ref? && top.value.id in active
            && Tracks(heap, rest, active - {top.value.id}, maxDepth, r)
            && StackCost(heap, rest, maxDepth) < StackCost(heap, stack, maxDepth)
  {
    ExitsAfterPop(stack);
  }

  /** A container is entered: its exit frame and its children replace it on the stack. */
  lemma TracksContainer(heap: Heap, rest: seq<Frame>, top: Frame, active: set<nat>, maxDepth: int, r: Outcome)
    requires !top.exiting && top.value.Ref? && Tracks(heap, rest + [top], active, maxDepth, r)
    requires top.parentDepth + 1 <= maxDepth && top.value.id !in active
    requires KeyOutcome(At(heap, top.value.id)) == Valid
    ensures var next := rest + [Frame(top.value, top.parentDepth, true)]
                      + Frames(Items(At(heap, top.value.id)), top.parentDepth + 1);
            && Tracks(heap, next, active + {top.value.id}, maxDepth, r)
            && StackCost(heap, next, maxDepth) < StackCost(heap, rest + [top], maxDepth)
  {
    var id, depth, exit := top.value.id, top.parentDepth + 1, Frame(top.value, top.parentDepth, true);
    var stack, base, items := rest + [top], rest + [exit], Items(At(heap, id));
    assert stack[..|rest|] == rest && base[..|rest|] == rest && active + {id} - {id} == active;
    ExitsAfterPop(stack);
    ExitsAfterEntering(rest, exit);
    PendingChildren(heap, base, items, depth, active + {id}, maxDepth);
    ExitsOfChildren(base, items, depth);
  }

  /**
   The explicit-stack traversal reports what the recursive one does, first problem included, and accepts exactly the
   values all of whose paths end cleanly.
   */
  method ValidateJsonStructure(heap: Heap, value: Value, maxDepth: int) returns (r: Outcome)
    ensures r == Walk(heap, value, 0, {}, maxDepth)
    ensures r == Valid <==> Acceptable(heap, value, maxDepth)
  {
    hide Acceptable, CheckText, Schedules, Tracks, StackCost;
    ghost var expected := Walk(heap, value, 0, {}, maxDepth);
    ValidMeansAcceptable(heap, value, maxDepth);
    TracksRoot(heap, value, maxDepth);
    var stack := [Frame(value, 0, false)];
    var active: set<nat> := {};
    while stack != []
      invariant Tracks(heap, stack, active, maxDepth, expected)
      decreases StackCost(heap, stack, maxDepth)
    {
      ghost var before := stack;
      var frame := stack[|stack| - 1];
      stack := stack[..|stack| - 1];
      assert before == stack + [frame];
      if frame.exiting {
        TracksExit(heap, before, active, maxDepth, expected);
      } else {
        TracksValue(heap, before, active, maxDepth, expected);
      }
      match frame.value {
        case Str(text) =>
          var checked := CheckText(text);
          if checked.Invalid? { return checked; }
        case Float(finite) =>
          if !finite { return Invalid(NonFiniteNumber); }
        case Opaque =>
        case Ref(id) =>
          if frame.exiting {
            active := active - {id};
          } else {
            var depth := frame.parentDepth + 1;
            if depth > maxDepth { return Invalid(TooDeep); }
            if id in active { return Invalid(Circular); }
            var base := stack + [Frame(frame.value, frame.parentDepth, true)];
            var checked, pushed := PushChildren(At(heap, id), base, depth);
            if checked.Invalid? { return checked; }
            TracksContainer(heap, stack, frame, active, maxDepth, expected);
            active := active + {id};
            stack := pushed;
          }
      }
    }
    TracksNothing(heap, active, maxDepth, expected);
    return Valid;
  }

  lemma TracksRoot(heap: Heap, value: Value, maxDepth: int)
    ensures Tracks(heap, [Frame(value, 0, false)], {}, maxDepth, Walk(heap, value, 0, {}, maxDepth))
  {
    var stack := [Frame(value, 0, false)];
    assert stack[..0] == [];
    ExitsAfterPop(stack);
  }

  lemma TracksNothing(heap: Heap, active: set<nat>, maxDepth: int, r: Outcome)
    requires Tracks(heap, [], active, maxDepth, r)
    ensures r == Valid
  {}

  /** Taking the top frame off; nothing exits on a stack whose only frame is not an exit frame. */
  lemma ExitsAfterPop(stack: seq<Frame>)
    requires stack != [] && (ExitsDistinct(stack) || (|stack| == 1 && !stack[0].exiting))
    ensures var top, rest := stack[|stack| - 1], stack[..|stack| - 1];
            && ExitsDistinct(stack) && ExitsDistinct(rest)
            && (if top.exiting
                then top.value.Ref? && top.value.id in Exits(stack) && Exits(rest) == Exits(stack) - {top.value.id}
                else Exits(rest) == Exits(stack))
            && (|stack| == 1 && !top.exiting ==> Exits(stack) == {})
  {
    var top, rest := stack[|stack| - 1], stack[..|stack| - 1];
    assert stack == rest + [top];
    if top.exiting {
      forall id | id in Exits(stack) - {top.value.id} ensures id in Exits(rest) {
        var i :| 0 <= i < |stack| && stack[i].exiting && stack[i].value.Ref? && stack[i].value.id == id;
        assert rest[i] == stack[i];
      }
    }
  }

  lemma ExitsOfChildren(base: seq<Frame>, vs: seq<Value>, depth: int)
    requires ExitsDistinct(base)
    ensures Exits(base + Frames(vs, depth)) == Exits(base)
    ensures ExitsDistinct(base + Frames(vs, depth))
  {
    var stack := base + Frames(vs, depth);
    assert forall i :: 0 <= i < |base| ==> stack[i] == base[i];
    assert forall i :: |base| <= i < |stack| ==> !stack[i].exiting;
  }

  lemma ExitsAfterEntering(stack: seq<Frame>, exit: Frame)
    requires ExitsDistinct(stack) && exit.exiting && exit.value.Ref? && exit.value.id !in Exits(stack)
    ensures Exits(stack + [exit]) == Exits(stack) + {exit.value.id}
    ensures ExitsDistinct(stack + [exit])
  {
    var base := stack + [exit];
    assert base[|stack|] == exit;
    assert forall i :: 0 <= i < |stack| ==> base[i] == stack[i];
  }

  // --------------------------------------------------------------- meaning of acceptance

  /** Containment in the object graph: `w` is an item of the list, or the value (or the key) of an entry. */
  ghost predicate ChildOf(heap: Heap, v: Value, w: Value, keysToo: bool) {
    v.Ref? && v.id in heap &&
    match heap[v.id]
    case List(items) => w in items
    case Dict(entries) => exists e :: e in entries && (w == e.1 || (keysToo && w == e.0))
  }

  /** A path of the object graph: it starts at `v`, and each value contains the next one. */
  ghost predicate PathFrom(heap: Heap, keysToo: bool, v: Value, path: seq<Value>) {
    && |path| > 0 && path[0] == v
    && forall i :: 0 < i < |path| ==> ChildOf(heap, path[i - 1], path[i], keysToo)
  }

  function Last(path: seq<Value>): Value
    requires |path| > 0
  {
    path[|path| - 1]
  }

  predicate CleanText(text: Text) { forall c :: c in text ==> c != 0 && !(0xD800 <= c <= 0xDFFF) }

  /** What one value must satisfy when `level` containers enclose it. */
  ghost predicate Clean(heap: Heap, v: Value, level: int, maxDepth: int) {
    match v
    case Str(text) => CleanText(text)
    case Float(finite) => finite
    case Opaque => true
    case Ref(id) =>
      && level + 1 <= maxDepth
      && (id in heap && heap[id].Dict? ==>
            forall e :: e in heap[id].entries ==> e.0.Str? && CleanText(e.0.text))
  }

  /** Every path ends in a clean value; the container limit holds along all of them. */
  ghost predicate Acceptable(heap: Heap, v: Value, maxDepth: int) {
    forall path :: PathFrom(heap, false, v, path) ==> Clean(heap, Last(path), |path| - 1, maxDepth)
  }

  /** The text of `w` itself or of one of its keys contains a code point from `lo` to `hi`. */
  ghost predicate Carries(heap: Heap, w: Value, lo: int, hi: int) {
    || (w.Str? && exists c :: c in w.text && lo <= c <= hi)
    || (w.Ref? && w.id in heap && heap[w.id].Dict?
        && exists e, c :: e in heap[w.id].entries && e.0.Str? && c in e.0.text && lo <= c <= hi)
  }

  /** Value `w`, enclosed by `level` containers, is a reason for `problem` other than circularity. */
  ghost predicate Exhibits(problem: Problem, heap: Heap, w: Value, level: int, maxDepth: int) {
    match problem
    case NulCharacter => Carries(heap, w, 0, 0)
    case InvalidUnicode => Carries(heap, w, 0xD800, 0xDFFF)
    case NonFiniteNumber => w == Float(false)
    case TooDeep => w.Ref? && level + 1 > maxDepth
    case NonStringKey =>
      w.Ref? && w.id in heap && heap[w.id].Dict? && exists e :: e in heap[w.id].entries && !e.0.Str?
    case Circular => false
  }

  lemma {:induction false} CheckKeysMeaning(entries: seq<(Value, Value)>)
    ensures CheckKeys(entries) == Valid <==> forall e :: e in entries ==> e.0.Str? && CleanText(e.0.text)
    ensures CheckKeys(entries).Invalid? ==> exists e :: e in entries && CheckKey(e.0) == CheckKeys(entries)
    decreases |entries|
  {
    if entries != [] {
      var front := entries[..|entries| - 1];
      CheckKeysMeaning(front);
      assert entries == front + [entries[|entries| - 1]];
    }
  }

  /** The children a walker goes to: the values of a dictionary, and for `contains_nul` its keys as well. */
  function Children(c: Container, keysToo: bool): seq<Value> {
    if c.Dict? && keysToo then seq(|c.entries|, i requires 0 <= i < |c.entries| => c.entries[i].0) + Items(c)
    else Items(c)
  }

  /** The walkers schedule exactly what a container contains. */
  lemma ChildrenAreContained(heap: Heap, id: nat, w: Value, keysToo: bool)
    ensures w in Children(At(heap, id), keysToo) <==> ChildOf(heap, Ref(id), w, keysToo)
  {
    var c := At(heap, id);
    if c.Dict? {
      forall e | e in c.entries
        ensures e.1 in Children(c, keysToo) && (keysToo ==> e.0 in Children(c, keysToo))
      {
        var i :| 0 <= i < |c.entries| && c.entries[i] == e;
        assert Items(c)[i] == e.1;
        assert keysToo ==> Children(c, keysToo)[i] == e.0;
      }
    }
  }

  lemma PathTail(heap: Heap, keysToo: bool, v: Value, path: seq<Value>)
    requires PathFrom(heap, keysToo, v, path) && |path| > 1
    ensures ChildOf(heap, v, path[1], keysToo) && PathFrom(heap, keysToo, path[1], path[1..])
  {
    assert ChildOf(heap, path[0], path[1], keysToo);
    forall i | 0 < i < |path| - 1 ensures ChildOf(heap, path[1..][i - 1], path[1..][i], keysToo) {
      assert ChildOf(heap, path[i + 1 - 1], path[i + 1], keysToo);
    }
  }

  lemma PathJoin(heap: Heap, keysToo: bool, v: Value, p: seq<Value>, q: seq<Value>)
    requires PathFrom(heap, keysToo, v, p) && PathFrom(heap, keysToo, Last(p), q)
    ensures PathFrom(heap, keysToo, v, p + q[1..]) && Last(p + q[1..]) == Last(q)
  {
    var path := p + q[1..];
    forall i | 0 < i < |path| ensures ChildOf(heap, path[i - 1], path[i], keysToo) {
      if i >= |p| {
        assert path[i] == q[i - |p| + 1] && path[i - 1] == q[i - |p|];
      }
    }
  }

  /** `Walk` vouches for every value below `v`. */
  lemma {:induction false} WalkValidIsClean(heap: Heap, v: Value, depth: int, active: set<nat>, maxDepth: int,
                                            path: seq<Value>)
    requires Walk(heap, v, depth, active, maxDepth) == Valid
    requires PathFrom(heap, false, v, path)
    ensures Clean(heap, Last(path), depth + |path| - 1, maxDepth)
    decreases |path|
  {
    if |path| == 1 {
      if v.Ref? && At(heap, v.id).Dict? { CheckKeysMeaning(At(heap, v.id).entries); }
    } else {
      PathTail(heap, false, v, path);
      ChildrenAreContained(heap, v.id, path[1], false);
      WalkAllValid(heap, Items(At(heap, v.id)), depth + 1, active + {v.id}, maxDepth, path[1]);
      WalkValidIsClean(heap, path[1], depth + 1, active + {v.id}, maxDepth, path[1..]);
    }
  }

  lemma {:induction false} WalkAllValid(heap: Heap, vs: seq<Value>, depth: int, active: set<nat>, maxDepth: int,
                                        w: Value)
    requires WalkAll(heap, vs, depth, active, maxDepth) == Valid && w in vs
    ensures Walk(heap, w, depth, active, maxDepth) == Valid
    decreases |vs|
  {
    var front := vs[..|vs| - 1];
    assert vs == front + [vs[|vs| - 1]];
    if w in front { WalkAllValid(heap, front, depth, active, maxDepth, w); }
  }

  lemma {:induction false} WalkAllInvalid(heap: Heap, vs: seq<Value>, depth: int, active: set<nat>, maxDepth: int)
    returns (w: Value)
    requires WalkAll(heap, vs, depth, active, maxDepth).Invalid?
    ensures w in vs && Walk(heap, w, depth, active, maxDepth) == WalkAll(heap, vs, depth, active, maxDepth)
    decreases |vs|
  {
    w := vs[|vs| - 1];
    if Walk(heap, w, depth, active, maxDepth) == Valid {
      w := WalkAllInvalid(heap, vs[..|vs| - 1], depth, active, maxDepth);
    }
  }

  /** The path ends in a container met before: an enclosing one or one on the path itself. */
  ghost predicate Revisits(active: set<nat>, path: seq<Value>)
    requires |path| > 0
  {
    Last(path).Ref? && (Last(path).id in active || exists i :: 0 <= i < |path| - 1 && path[i] == Last(path))
  }

  lemma KeyProblemIsExhibited(heap: Heap, id: nat, level: int, maxDepth: int)
    requires KeyOutcome(At(heap, id)).Invalid?
    ensures Exhibits(KeyOutcome(At(heap, id)).problem, heap, Ref(id), level, maxDepth)
  {
    CheckKeysMeaning(heap[id].entries);
    var e :| e in heap[id].entries && CheckKey(e.0) == KeyOutcome(heap[id]);
    if e.0.Str? && HasNul(e.0.text) {
      assert 0 in e.0.text;
    } else if e.0.Str? {
      var c :| c in e.0.text && 0xD800 <= c <= 0xDFFF;
    }
  }

  /** Every reported problem has a witness at the end of some path. */
  lemma {:induction false} WalkProblemHasWitness(heap: Heap, v: Value, depth: int, active: set<nat>, maxDepth: int)
    returns (path: seq<Value>)
    requires Walk(heap, v, depth, active, maxDepth).Invalid?
    ensures PathFrom(heap, false, v, path)
    ensures var problem := Walk(heap, v, depth, active, maxDepth).problem;
            if problem == Circular then Revisits(active, path)
            else Exhibits(problem, heap, Last(path), depth + |path| - 1, maxDepth)
    decreases maxDepth - depth
  {
    path := [v];
    if v.Ref? && depth + 1 <= maxDepth && v.id !in active {
      var c := At(heap, v.id);
      if KeyOutcome(c).Invalid? {
        KeyProblemIsExhibited(heap, v.id, depth, maxDepth);
      } else {
        var w := WalkAllInvalid(heap, Items(c), depth + 1, active + {v.id}, maxDepth);
        var rest := WalkProblemHasWitness(heap, w, depth + 1, active + {v.id}, maxDepth);
        ChildrenAreContained(heap, v.id, w, false);
        PathJoin(heap, false, v, [v, w], rest);
        path := [v] + rest;
        assert path == [v, w] + rest[1..];
        if Walk(heap, v, depth, active, maxDepth).problem == Circular && Last(rest).id !in active {
          assert path[0] == v;
          if Last(rest) != v {
            var i :| 0 <= i < |rest| - 1 && rest[i] == Last(rest);
            assert path[i + 1] == Last(path);
          }
        }
      }
    }
  }

  /** From `v`, the container `id` can be reached, and from there it can be reached again. */
  ghost predicate OnCycle(heap: Heap, v: Value, id: nat, path: seq<Value>, loop: seq<Value>) {
    && PathFrom(heap, false, v, path) && Last(path) == Ref(id)
    && PathFrom(heap, false, Ref(id), loop) && Last(loop) == Ref(id) && |loop| > 1
  }

  lemma CircularReportIsReal(heap: Heap, v: Value, maxDepth: int)
    requires Walk(heap, v, 0, {}, maxDepth) == Invalid(Circular)
    ensures exists id, path, loop :: OnCycle(heap, v, id, path, loop)
  {
    var path := WalkProblemHasWitness(heap, v, 0, {}, maxDepth);
    var i :| 0 <= i < |path| - 1 && path[i] == Last(path);
    var loop := path[i..];
    forall k | 0 < k < |loop| ensures ChildOf(heap, loop[k - 1], loop[k], false) {
      assert ChildOf(heap, path[i + k - 1], path[i + k], false);
    }
    assert OnCycle(heap, v, Last(path).id, path, loop);
  }

  /** Going round a cycle gives paths of any length. */
  lemma {:induction false} Pump(heap: Heap, v: Value, id: nat, path: seq<Value>, loop: seq<Value>, n: nat)
    returns (long: seq<Value>)
    requires OnCycle(heap, v, id, path, loop)
    ensures |long| > n && PathFrom(heap, false, v, long) && Last(long) == Ref(id)
  {
    long := path;
    if n > 0 {
      var shorter := Pump(heap, v, id, path, loop, n - 1);
      PathJoin(heap, false, v, shorter, loop);
      long := shorter + loop[1..];
    }
  }

  lemma CycleIsUnacceptable(heap: Heap, v: Value, maxDepth: int, id: nat, path: seq<Value>, loop: seq<Value>)
    requires OnCycle(heap, v, id, path, loop)
    ensures !Acceptable(heap, v, maxDepth)
  {
    var long := Pump(heap, v, id, path, loop, if maxDepth < 0 then 0 else maxDepth);
    assert !Clean(heap, Last(long), |long| - 1, maxDepth);
  }

  /** Acceptance means exactly that every path of the object graph, cyclic or shared, ends in a clean value. */
  lemma ValidMeansAcceptable(heap: Heap, v: Value, maxDepth: int)
    ensures Walk(heap, v, 0, {}, maxDepth) == Valid <==> Acceptable(heap, v, maxDepth)
  {
    if Walk(heap, v, 0, {}, maxDepth) == Valid {
      forall path | PathFrom(heap, false, v, path) ensures Clean(heap, Last(path), |path| - 1, maxDepth) {
        WalkValidIsClean(heap, v, 0, {}, maxDepth, path);
      }
    } else if Walk(heap, v, 0, {}, maxDepth) == Invalid(Circular) {
      CircularReportIsReal(heap, v, maxDepth);
      var id, path, loop :| OnCycle(heap, v, id, path, loop);
      CycleIsUnacceptable(heap, v, maxDepth, id, path, loop);
    } else {
      var path := WalkProblemHasWitness(heap, v, 0, {}, maxDepth);
      assert !Clean(heap, Last(path), |path| - 1, maxDepth);
    }
  }

  /** Both sides of every entry of an accepted dictionary, and every item of an accepted list, are clean. */
  lemma AcceptedContainerIsClean(heap: Heap, id: nat, maxDepth: int)
    requires Walk(heap, Ref(id), 0, {}, maxDepth) == Valid && id in heap
    ensures maxDepth >= 1
    ensures heap[id].Dict? ==>
              forall e :: e in heap[id].entries ==> e.0.Str? && CleanText(e.0.text) && Clean(heap, e.1, 1, maxDepth)
    ensures heap[id].List? ==> forall w :: w in heap[id].items ==> Clean(heap, w, 1, maxDepth)
  {
    ValidMeansAcceptable(heap, Ref(id), maxDepth);
    assert PathFrom(heap, false, Ref(id), [Ref(id)]) && Last([Ref(id)]) == Ref(id);
    assert Clean(heap, Ref(id), 0, maxDepth);
    forall w | ChildOf(heap, Ref(id), w, false) ensures Clean(heap, w, 1, maxDepth) {
      var path := [Ref(id), w];
      assert PathFrom(heap, false, Ref(id), path) && Last(path) == w;
    }
    if heap[id].Dict? {
      forall e | e in heap[id].entries ensures Clean(heap, e.1, 1, maxDepth) {
        assert ChildOf(heap, Ref(id), e.1, false);
      }
    }
  }

  /**
   Which of several problems is reported: NUL before surrogates within a text, the last item of a list first, every
   key of a dictionary before any of its values, depth before circularity.
   */
  lemma FirstProblem()
    ensures Walk(map[], Str([0xD800, 0]), 0, {}, 32) == Invalid(NulCharacter)
    ensures Walk(map[0 := List([Float(false), Str([0])])], Ref(0), 0, {}, 32) == Invalid(NulCharacter)
    ensures Walk(map[0 := List([Str([0]), Float(false)])], Ref(0), 0, {}, 32) == Invalid(NonFiniteNumber)
    ensures Walk(map[0 := Dict([(Str([97]), Float(false)), (Opaque, Opaque)])], Ref(0), 0, {}, 32)
         == Invalid(NonStringKey)
    ensures Walk(map[0 := Dict([(Str([97]), Float(false))])], Ref(0), 0, {}, 32) == Invalid(NonFiniteNumber)
    ensures Walk(map[0 := List([Ref(0)])], Ref(0), 0, {}, 1) == Invalid(TooDeep)
    ensures Walk(map[0 := List([Ref(0)])], Ref(0), 0, {}, 2) == Invalid(Circular)
  {
    var nan, nul, a := Float(false), Str([0]), Str([97]);
    var two, ows := map[0 := List([nan, nul])], map[0 := List([nul, nan])];
    assert [nan, nul][..1] == [nan] && [nul, nan][..1] == [nul];
    assert WalkAll(two, [nan, nul], 1, {0}, 32) == Invalid(NulCharacter);
    assert WalkAll(ows, [nul, nan], 1, {0}, 32) == Invalid(NonFiniteNumber);
    assert {} + {0} == {0};
    assert [(a, nan), (Opaque, Opaque)][..1] == [(a, nan)] && [(a, nan)][..0] == [];
    assert CheckKeys([(a, nan)]) == Valid;
    assert CheckKeys([(a, nan), (Opaque, Opaque)]) == Invalid(NonStringKey);
    var dict := map[0 := Dict([(a, nan)])];
    assert Items(At(dict, 0)) == [nan];
    assert WalkAll(dict, [nan], 1, {0}, 32) == Invalid(NonFiniteNumber);
    var self := map[0 := List([Ref(0)])];
    assert WalkAll(self, [Ref(0)], 1, {0}, 1) == Invalid(TooDeep);
    assert WalkAll(self, [Ref(0)], 1, {0}, 2) == Invalid(Circular);
  }

  // --------------------------------------------------------------- contains_nul

  predicate NulText(v: Value) { v.Str? && 0 in v.text }

  ghost predicate Reachable(heap: Heap, v: Value, w: Value) {
    exists path :: PathFrom(heap, true, v, path) && Last(path) == w
  }

  ghost predicate NulReachable(heap: Heap, v: Value) {
    exists w :: Reachable(heap, v, w) && NulText(w)
  }

  /** `w` needs no further look: it is scheduled, was expanded, or is a leaf without NUL. */
  ghost predicate Handled(w: Value, stack: seq<Value>, visited: set<nat>) {
    w in stack || (if w.Ref? then w.id in visited else !NulText(w))
  }

  ghost predicate Expanded(heap: Heap, stack: seq<Value>, visited: set<nat>) {
    forall id, w :: id in visited && w in Children(At(heap, id), true) ==> Handled(w, stack, visited)
  }

  ghost predicate AllReachable(heap: Heap, root: Value, stack: seq<Value>) {
    forall w :: w in stack ==> Reachable(heap, root, w)
  }

  /** The visited set loses nothing: the answer is whether some path, through keys too, ends in a NUL string. */
  method ContainsNul(heap: Heap, value: Value) returns (found: bool)
    ensures found <==> NulReachable(heap, value)
  {
    hide Progress, Reachable;
    var stack := [value];
    var visited: set<nat> := {};
    RootProgress(heap, value);
    while stack != []
      invariant Progress(heap, value, stack, visited)
      decreases heap.Keys - visited, |stack|
    {
      ghost var before := stack;
      var current := stack[|stack| - 1];
      stack := stack[..|stack| - 1];
      assert before == stack + [current];
      if current.Str? && HasNul(current.text) {
        ScheduledIsReachable(heap, value, before, visited, current);
        return true;
      }
      if current.Ref? && current.id !in visited {
        var children := Children(At(heap, current.id), true);
        ProgressAfter(heap, value, stack, visited, current, children, {current.id});
        visited := visited + {current.id};
        stack := stack + children;
      } else {
        ProgressAfter(heap, value, stack, visited, current, [], {});
        assert stack + [] == stack && visited + {} == visited;
      }
    }
    NothingLeft(heap, value, visited);
    return false;
  }

  /** The root is handled, the children of visited containers are, and what is scheduled can be reached. */
  ghost predicate Progress(heap: Heap, root: Value, stack: seq<Value>, visited: set<nat>) {
    && Handled(root, stack, visited)
    && Expanded(heap, stack, visited)
    && AllReachable(heap, root, stack)
  }

  /** Taking `current` off the stack is sound once it is a leaf without NUL, or visited with its children scheduled. */
  lemma ProgressAfter(heap: Heap, root: Value, stack: seq<Value>, visited: set<nat>, current: Value,
                      pushed: seq<Value>, entered: set<nat>)
    requires Progress(heap, root, stack + [current], visited)
    requires if current.Ref? then current.id in visited + entered else !NulText(current)
    requires entered == {} || (current.Ref? && entered == {current.id})
    requires pushed == if entered == {} then [] else Children(At(heap, current.id), true)
    ensures Progress(heap, root, stack + pushed, visited + entered)
  {
    assert forall w :: w in stack + [current] <==> w in stack || w == current;
    assert forall w :: Handled(w, stack + [current], visited) ==> Handled(w, stack + pushed, visited + entered);
    forall id, w | id in visited + entered && w in Children(At(heap, id), true)
      ensures Handled(w, stack + pushed, visited + entered)
    {
      if id in visited { assert Handled(w, stack + [current], visited); }
    }
    if entered != {} { ChildrenReachable(heap, root, current); }
  }

  lemma RootProgress(heap: Heap, root: Value)
    ensures Progress(heap, root, [root], {})
  {
    assert PathFrom(heap, true, root, [root]) && Last([root]) == root;
  }

  lemma ScheduledIsReachable(heap: Heap, root: Value, stack: seq<Value>, visited: set<nat>, w: Value)
    requires Progress(heap, root, stack, visited) && w in stack && NulText(w)
    ensures NulReachable(heap, root)
  {
    assert Reachable(heap, root, w);
  }

  lemma NothingLeft(heap: Heap, root: Value, visited: set<nat>)
    requires Progress(heap, root, [], visited)
    ensures !NulReachable(heap, root)
  {
    forall w | Reachable(heap, root, w) ensures !NulText(w) {
      var path :| PathFrom(heap, true, root, path) && Last(path) == w;
      AllExpanded(heap, root, visited, path);
    }
  }

  lemma ChildrenReachable(heap: Heap, root: Value, v: Value)
    requires v.Ref? && Reachable(heap, root, v)
    ensures AllReachable(heap, root, Children(At(heap, v.id), true))
  {
    var path :| PathFrom(heap, true, root, path) && Last(path) == v;
    forall w | w in Children(At(heap, v.id), true) ensures Reachable(heap, root, w) {
      ChildrenAreContained(heap, v.id, w, true);
      PathJoin(heap, true, root, path, [v, w]);
    }
  }

  lemma {:induction false} AllExpanded(heap: Heap, v: Value, visited: set<nat>, path: seq<Value>)
    requires Expanded(heap, [], visited) && Handled(v, [], visited)
    requires PathFrom(heap, true, v, path)
    ensures Handled(Last(path), [], visited)
    decreases |path|
  {
    if |path| > 1 {
      PathTail(heap, true, v, path);
      ChildrenAreContained(heap, v.id, path[1], true);
      AllExpanded(heap, path[1], visited, path[1..]);
    }
  }

  /** The two walkers agree: an accepted structure holds no NUL, in keys or values. */
  lemma AcceptedHasNoNul(heap: Heap, v: Value, maxDepth: int)
    requires Walk(heap, v, 0, {}, maxDepth) == Valid
    ensures !NulReachable(heap, v)
  {
    forall w | Reachable(heap, v, w) ensures !NulText(w) {
      var path :| PathFrom(heap, true, v, path) && Last(path) == w;
      CleanBelow(heap, v, 0, {}, maxDepth, path);
    }
  }

  lemma {:induction false} CleanBelow(heap: Heap, v: Value, depth: int, active: set<nat>, maxDepth: int,
                                      path: seq<Value>)
    requires Walk(heap, v, depth, active, maxDepth) == Valid
    requires PathFrom(heap, true, v, path)
    ensures !NulText(Last(path))
    decreases |path|
  {
    if |path| > 1 {
      PathTail(heap, true, v, path);
      if ChildOf(heap, v, path[1], false) {
        ChildrenAreContained(heap, v.id, path[1], false);
        WalkAllValid(heap, Items(At(heap, v.id)), depth + 1, active + {v.id}, maxDepth, path[1]);
        CleanBelow(heap, path[1], depth + 1, active + {v.id}, maxDepth, path[1..]);
      } else {
        CheckKeysMeaning(heap[v.id].entries);
        if |path| > 2 { PathTail(heap, true, path[1], path[1..]); }
      }
    }
  }
}
