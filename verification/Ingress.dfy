/** The check every request body passes before its model is built: an iterative walk over a value tree
    that looks for lone surrogates and gives up on deep nesting. */
module Ingress {
  import opened Common

  const MAX_NESTING: nat := 32

  /** A decoded body. Strings are sequences of code points; `Items` is a list, tuple or set. */
  datatype Value = Str(codes: seq<int>) | Dict(entries: seq<Entry>) | Items(elems: seq<Value>) | Atom
  datatype Entry = Entry(key: Value, value: Value)

  datatype Verdict = Clean | Surrogate | TooDeep

  predicate IsSurrogate(c: int) { 0xD800 <= c <= 0xDFFF }

  predicate HasSurrogate(codes: seq<int>) { exists i | 0 <= i < |codes| :: IsSurrogate(codes[i]) }

  // ---------- recursive specification of the walk ----------

  /** Last child first, as a stack serves them; the first verdict other than `Clean` is the result. */
  function Walk(v: Value, depth: nat): Verdict
    decreases v, 0
  {
    if depth > MAX_NESTING then TooDeep
    else match v
      case Str(codes) => if HasSurrogate(codes) then Surrogate else Clean
      case Dict(entries) => WalkEntries(entries, depth + 1)
      case Items(elems) => WalkElems(elems, depth + 1)
      case Atom => Clean
  }

  function WalkElems(vs: seq<Value>, depth: nat): Verdict
    decreases vs, 1
  {
    if vs == [] then Clean else
      var m := |vs| - 1;
      Else(Walk(vs[m], depth), WalkElems(vs[..m], depth))
  }

  function WalkEntries(es: seq<Entry>, depth: nat): Verdict
    decreases es, 1
  {
    if es == [] then Clean else
      var m := |es| - 1;
      Else(WalkEntry(es[m], depth), WalkEntries(es[..m], depth))
  }

  function WalkEntry(e: Entry, depth: nat): Verdict
    decreases e, 1
  {
    Else(Walk(e.value, depth), Walk(e.key, depth))
  }

  function Else(a: Verdict, b: Verdict): Verdict { if a.Clean? then b else a }

  // ---------- specification without an order ----------

  predicate IsChild(c: Value, v: Value) {
    match v
    case Dict(es) => exists i | 0 <= i < |es| :: c == es[i].key || c == es[i].value
    case Items(vs) => c in vs
    case _ => false
  }

  /** `x` is a node of `v`, `d` levels down. */
  ghost predicate Occurs(x: Value, v: Value, d: nat) {
    if d == 0 then x == v else exists c :: IsChild(c, v) && Occurs(x, c, d - 1)
  }

  predicate Good(x: Value, d: nat) { d <= MAX_NESTING && (x.Str? ==> !HasSurrogate(x.codes)) }

  /** Every node of `v` is good where it stands, `v` itself standing at `depth`. */
  ghost predicate AllGood(v: Value, depth: nat) {
    forall x, d: nat :: Occurs(x, v, d) ==> Good(x, depth + d)
  }

  lemma AllGoodUnfolds(v: Value, depth: nat)
    ensures AllGood(v, depth) <==> Good(v, depth) && forall c :: IsChild(c, v) ==> AllGood(c, depth + 1)
  {
    if AllGood(v, depth) {
      assert Occurs(v, v, 0);
      forall c, x, d: nat | IsChild(c, v) && Occurs(x, c, d) ensures Good(x, depth + 1 + d) {
        assert Occurs(x, v, d + 1);
      }
    }
    if Good(v, depth) && forall c :: IsChild(c, v) ==> AllGood(c, depth + 1) {
      forall x, d: nat | Occurs(x, v, d) ensures Good(x, depth + d) {
        if d > 0 {
          var c :| IsChild(c, v) && Occurs(x, c, d - 1);
          assert AllGood(c, depth + 1);
        }
      }
    }
  }

  /** A bad node, of the kind the verdict names. */
  ghost predicate Witnessed(verdict: Verdict, v: Value, depth: nat) {
    match verdict
    case Clean => AllGood(v, depth)
    case Surrogate => exists x, d: nat :: Occurs(x, v, d) && x.Str? && HasSurrogate(x.codes)
    case TooDeep => exists x, d: nat :: Occurs(x, v, d) && depth + d > MAX_NESTING
  }

  lemma WitnessedBelow(verdict: Verdict, c: Value, v: Value, depth: nat)
    requires IsChild(c, v) && !verdict.Clean? && Witnessed(verdict, c, depth + 1)
    ensures Witnessed(verdict, v, depth)
  {
    if verdict.Surrogate? {
      var x, d: nat :| Occurs(x, c, d) && x.Str? && HasSurrogate(x.codes);
      assert Occurs(x, v, d + 1);
    } else {
      var x, d: nat :| Occurs(x, c, d) && depth + 1 + d > MAX_NESTING;
      assert Occurs(x, v, d + 1);
    }
  }

  /** The walk's verdict is right about the tree, however its nodes are ordered. */
  lemma {:induction false} WalkIsRight(v: Value, depth: nat)
    ensures Witnessed(Walk(v, depth), v, depth)
    decreases v, 0
  {
    AllGoodUnfolds(v, depth);
    assert Occurs(v, v, 0);
    if depth <= MAX_NESTING {
      match v {
        case Str(_) =>
        case Atom =>
        case Items(vs) => ElemsAreRight(vs, v, depth);
        case Dict(es) => EntriesAreRight(es, v, depth);
      }
    }
  }

  lemma {:induction false} ElemsAreRight(vs: seq<Value>, v: Value, depth: nat)
    requires forall c :: c in vs ==> IsChild(c, v)
    ensures WalkElems(vs, depth + 1).Clean? ==> forall c :: c in vs ==> AllGood(c, depth + 1)
    ensures !WalkElems(vs, depth + 1).Clean? ==> Witnessed(WalkElems(vs, depth + 1), v, depth)
    decreases vs, 1
  {
    if vs != [] {
      var m := |vs| - 1;
      WalkIsRight(vs[m], depth + 1);
      ElemsAreRight(vs[..m], v, depth);
      assert vs == vs[..m] + [vs[m]];
      if !Walk(vs[m], depth + 1).Clean? { WitnessedBelow(Walk(vs[m], depth + 1), vs[m], v, depth); }
    }
  }

  ghost predicate EntryGood(e: Entry, depth: nat) { AllGood(e.key, depth) && AllGood(e.value, depth) }

  lemma {:induction false} EntriesAreRight(es: seq<Entry>, v: Value, depth: nat)
    requires forall i :: 0 <= i < |es| ==> IsChild(es[i].key, v) && IsChild(es[i].value, v)
    ensures WalkEntries(es, depth + 1).Clean? ==> forall i :: 0 <= i < |es| ==> EntryGood(es[i], depth + 1)
    ensures !WalkEntries(es, depth + 1).Clean? ==> Witnessed(WalkEntries(es, depth + 1), v, depth)
    decreases es, 1
  {
    if es != [] {
      var m := |es| - 1;
      EntryIsRight(es[m], v, depth);
      EntriesAreRight(es[..m], v, depth);
    }
  }

  lemma {:induction false} EntryIsRight(e: Entry, v: Value, depth: nat)
    requires IsChild(e.key, v) && IsChild(e.value, v)
    ensures WalkEntry(e, depth + 1).Clean? ==> EntryGood(e, depth + 1)
    ensures !WalkEntry(e, depth + 1).Clean? ==> Witnessed(WalkEntry(e, depth + 1), v, depth)
    decreases e, 1
  {
    WalkIsRight(e.value, depth + 1);
    WalkIsRight(e.key, depth + 1);
    if !Walk(e.value, depth + 1).Clean? {
      WitnessedBelow(Walk(e.value, depth + 1), e.value, v, depth);
    } else if !Walk(e.key, depth + 1).Clean? {
      WitnessedBelow(Walk(e.key, depth + 1), e.key, v, depth);
    }
  }

  // ---------- the explicit stack ----------

  datatype Frame = Frame(value: Value, depth: nat)

  function WalkStack(stack: seq<Frame>): Verdict {
    if stack == [] then Clean else
      var m := |stack| - 1;
      Else(Walk(stack[m].value, stack[m].depth), WalkStack(stack[..m]))
  }

  function ElemFrames(vs: seq<Value>, depth: nat): seq<Frame> {
    seq(|vs|, i requires 0 <= i < |vs| => Frame(vs[i], depth))
  }

  function EntryFrames(es: seq<Entry>, depth: nat): seq<Frame> {
    if es == [] then [] else
      var m := |es| - 1;
      EntryFrames(es[..m], depth) + [Frame(es[m].key, depth), Frame(es[m].value, depth)]
  }

  lemma {:induction false} StackConcat(a: seq<Frame>, b: seq<Frame>)
    ensures WalkStack(a + b) == Else(WalkStack(b), WalkStack(a))
  {
    if b == [] {
      assert a + b == a;
    } else {
      var m := |b| - 1;
      StackConcat(a, b[..m]);
      assert (a + b)[..|a| + m] == a + b[..m];
    }
  }

  lemma {:induction false} ElemFramesWalk(vs: seq<Value>, depth: nat)
    ensures WalkStack(ElemFrames(vs, depth)) == WalkElems(vs, depth)
  {
    if vs != [] {
      var m := |vs| - 1;
      ElemFramesWalk(vs[..m], depth);
      assert ElemFrames(vs, depth)[..m] == ElemFrames(vs[..m], depth);
    }
  }

  lemma {:induction false} EntryFramesWalk(es: seq<Entry>, depth: nat)
    ensures WalkStack(EntryFrames(es, depth)) == WalkEntries(es, depth)
  {
    if es != [] {
      var m := |es| - 1;
      EntryFramesWalk(es[..m], depth);
      PairWalk(EntryFrames(es[..m], depth), Frame(es[m].key, depth), Frame(es[m].value, depth));
    }
  }

  lemma PairWalk(rest: seq<Frame>, k: Frame, v: Frame)
    ensures WalkStack(rest + [k, v]) == Else(Walk(v.value, v.depth), Else(Walk(k.value, k.depth), WalkStack(rest)))
  {
    assert (rest + [k, v])[..|rest| + 1] == rest + [k];
    assert (rest + [k])[..|rest|] == rest;
  }

  // ---------- termination: nodes still to visit ----------

  function Nodes(v: Value): nat
    decreases v, 0
  {
    match v
    case Dict(es) => 1 + EntryNodes(es)
    case Items(vs) => 1 + ElemNodes(vs)
    case _ => 1
  }

  function ElemNodes(vs: seq<Value>): nat
    decreases vs, 1
  {
    if vs == [] then 0 else ElemNodes(vs[..|vs| - 1]) + Nodes(vs[|vs| - 1])
  }

  function EntryNodes(es: seq<Entry>): nat
    decreases es, 1
  {
    if es == [] then 0 else EntryNodes(es[..|es| - 1]) + NodesIn(es[|es| - 1])
  }

  function NodesIn(e: Entry): nat
    decreases e, 1
  {
    Nodes(e.key) + Nodes(e.value)
  }

  function StackNodes(stack: seq<Frame>): nat {
    if stack == [] then 0 else StackNodes(stack[..|stack| - 1]) + Nodes(stack[|stack| - 1].value)
  }

  lemma {:induction false} StackNodesConcat(a: seq<Frame>, b: seq<Frame>)
    ensures StackNodes(a + b) == StackNodes(a) + StackNodes(b)
  {
    if b == [] {
      assert a + b == a;
    } else {
      var m := |b| - 1;
      StackNodesConcat(a, b[..m]);
      assert (a + b)[..|a| + m] == a + b[..m];
    }
  }

  lemma {:induction false} ElemFramesNodes(vs: seq<Value>, depth: nat)
    ensures StackNodes(ElemFrames(vs, depth)) == ElemNodes(vs)
  {
    if vs != [] {
      var m := |vs| - 1;
      ElemFramesNodes(vs[..m], depth);
      assert ElemFrames(vs, depth)[..m] == ElemFrames(vs[..m], depth);
    }
  }

  lemma {:induction false} EntryFramesNodes(es: seq<Entry>, depth: nat)
    ensures StackNodes(EntryFrames(es, depth)) == EntryNodes(es)
  {
    if es != [] {
      var m := |es| - 1;
      var rest := EntryFrames(es[..m], depth);
      EntryFramesNodes(es[..m], depth);
      assert (rest + [Frame(es[m].key, depth), Frame(es[m].value, depth)])[..|rest| + 1] ==
             rest + [Frame(es[m].key, depth)];
      assert (rest + [Frame(es[m].key, depth)])[..|rest|] == rest;
    }
  }

  // ---------- the code ----------

  /** `Surrogate` is the answer true, `Clean` false, `TooDeep` the raised error. */
  method ContainsSurrogate(value: Value) returns (r: Verdict)
    ensures r == Walk(value, 0)
  {
    var stack := [Frame(value, 0)];
    while stack != []
      invariant WalkStack(stack) == Walk(value, 0)
      decreases StackNodes(stack)
    {
      var top, rest := stack[|stack| - 1], stack[..|stack| - 1];
      if top.depth > MAX_NESTING {
        return TooDeep;
      }
      match top.value {
        case Str(codes) =>
          if HasSurrogate(codes) {
            return Surrogate;
          }
          stack := rest;
        case Dict(entries) =>
          var pushed := PushEntries(rest, entries, top.depth + 1);
          StackConcat(rest, EntryFrames(entries, top.depth + 1));
          EntryFramesWalk(entries, top.depth + 1);
          StackNodesConcat(rest, EntryFrames(entries, top.depth + 1));
          EntryFramesNodes(entries, top.depth + 1);
          stack := pushed;
        case Items(elems) =>
          StackConcat(rest, ElemFrames(elems, top.depth + 1));
          ElemFramesWalk(elems, top.depth + 1);
          StackNodesConcat(rest, ElemFrames(elems, top.depth + 1));
          ElemFramesNodes(elems, top.depth + 1);
          stack := rest + ElemFrames(elems, top.depth + 1);
        case Atom =>
          stack := rest;
      }
    }
    r := Clean;
  }

  method PushEntries(rest: seq<Frame>, entries: seq<Entry>, depth: nat) returns (stack: seq<Frame>)
    ensures stack == rest + EntryFrames(entries, depth)
  {
    stack := rest;
    for i := 0 to |entries|
      invariant stack == rest + EntryFrames(entries[..i], depth)
    {
      assert entries[..i + 1][..i] == entries[..i];
      stack := stack + [Frame(entries[i].key, depth)];
      stack := stack + [Frame(entries[i].value, depth)];
    }
    assert entries[..|entries|] == entries;
  }

  /** A body goes on, unchanged, exactly if no key or string in it holds a surrogate and nothing in it is
      more than 32 levels down. */
  method RejectLoneSurrogates(data: Value) returns (r: Result<Value>)
    ensures r.Ok? <==> AllGood(data, 0)
    ensures r.Ok? ==> r.value == data
  {
    var verdict := ContainsSurrogate(data);
    CleanOrWitness(data, 0);
    r := if verdict.Clean? then Ok(data) else Rejected;
  }

  /** A set is walked in whatever order it yields its elements; the verdict on acceptance is the same. */
  lemma OrderDoesNotMatter(a: seq<Value>, b: seq<Value>, depth: nat)
    requires multiset(a) == multiset(b)
    ensures Walk(Items(a), depth).Clean? <==> Walk(Items(b), depth).Clean?
  {
    CleanOrWitness(Items(a), depth);
    CleanOrWitness(Items(b), depth);
    AllGoodUnfolds(Items(a), depth);
    AllGoodUnfolds(Items(b), depth);
    forall c ensures IsChild(c, Items(a)) <==> IsChild(c, Items(b)) {
      assert (c in a <==> c in multiset(a)) && (c in b <==> c in multiset(b));
    }
  }

  lemma CleanOrWitness(v: Value, depth: nat)
    ensures Walk(v, depth).Clean? <==> AllGood(v, depth)
  {
    WalkIsRight(v, depth);
    if !Walk(v, depth).Clean? {
      ghost var x, d: nat :| Occurs(x, v, d) && (depth + d > MAX_NESTING || (x.Str? && HasSurrogate(x.codes)));
      assert !Good(x, depth + d);
    }
  }
}
