/** The engine layer every scene and game object is built on: the per-class id
    counter of `NodeMixin`, its change-detecting signal registry, and the
    debug label a `GameObject` writes its log into. */
module Node {

  /** The static `_ID` counter of one application of `NodeMixin`. `NodeScene`
      and `GameObject` are two applications, so a program holds two of these;
      every game object (hole, person, player, information, button) draws
      from the same one. */
  class IdCounter {
    var last: nat

    constructor ()
      ensures last == 0
    {
      last := 0;
    }

    /** `++MixedNode._ID`: the new id exceeds every id handed out before. */
    method Next() returns (id: nat)
      modifies this
      ensures id == old(last) + 1 && last == id
    {
      last := last + 1;
      id := last;
    }
  }

  /** The values a signal carries, as far as the registry can tell them apart.
      `Args` is the argument array `emitSignal` stores: an array, so truthy
      even when it is empty. `Ref` is an object reference. */
  datatype Value =
    | Undefined
    | Null
    | Bool(b: bool)
    | Num(n: real)
    | Str(s: string)
    | Ref(obj: nat)
    | Args(items: seq<Value>)

  /** JavaScript falsiness (`NaN` is not among the values modelled). */
  predicate Falsy(v: Value) {
    v.Undefined? || v.Null? || v == Bool(false) || v == Num(0.0) || v == Str("")
  }

  /** One registered listener: an opaque callback and the last value it saw. */
  datatype Signal = Signal(callback: nat, oldValue: Value)

  /** Whether `emitSignal(name, ...args)` fires this listener: a falsy stored
      value reads as `undefined`, which never equals the serialised
      arguments; otherwise it fires when the stored value differs. */
  predicate Fires(s: Signal, args: seq<Value>) {
    Falsy(s.oldValue) || s.oldValue != Args(args)
  }

  /** The listener list after an emit: each listener that fires now stores
      the arguments; the others keep what they had. */
  function Emitted(list: seq<Signal>, args: seq<Value>): (r: seq<Signal>)
    ensures |r| == |list|
    ensures forall k :: 0 <= k < |list| ==> r[k].callback == list[k].callback
    ensures forall k :: 0 <= k < |list| ==>
      r[k].oldValue == if Fires(list[k], args) then Args(args) else list[k].oldValue
  {
    if list == [] then []
    else [if Fires(list[0], args) then Signal(list[0].callback, Args(args)) else list[0]]
         + Emitted(list[1..], args)
  }

  /** The callbacks an emit invokes, in registration order. */
  function Fired(list: seq<Signal>, args: seq<Value>): seq<nat> {
    if list == [] then []
    else (if Fires(list[0], args) then [list[0].callback] else []) + Fired(list[1..], args)
  }

  /** Change detection: repeating an emit with the same arguments invokes no
      callback and changes no stored value. */
  lemma {:induction false} EmitRepeatIsSilent(list: seq<Signal>, args: seq<Value>)
    ensures Fired(Emitted(list, args), args) == []
    ensures Emitted(Emitted(list, args), args) == Emitted(list, args)
  {
    if list != [] {
      EmitRepeatIsSilent(list[1..], args);
      assert Emitted(list, args)[1..] == Emitted(list[1..], args);
    }
  }

  /** A listener whose stored value is falsy fires on the next emit, whatever
      the arguments, and an emit fires each listener at most once. */
  lemma {:induction false} FiredMembers(list: seq<Signal>, args: seq<Value>, k: nat)
    requires k < |list|
    ensures Falsy(list[k].oldValue) ==> list[k].callback in Fired(list, args)
    ensures |Fired(list, args)| <= |list|
  {
    if k > 0 {
      FiredMembers(list[1..], args, k - 1);
    } else if list[1..] != [] {
      FiredMembers(list[1..], args, 0);
    }
  }

  /** The per-node signal map: a list of listeners per name. */
  class SignalRegistry {
    var signals: map<string, seq<Signal>>

    constructor ()
      ensures signals == map[]
    {
      signals := map[];
    }

    /** `addSignal`: creates the list when the name is new and appends one
        listener holding the default; earlier listeners stay as they were. */
    method AddSignal(name: string, callback: nat, defaultValue: Value)
      modifies this
      ensures name in signals
      ensures signals[name] ==
        (if name in old(signals) then old(signals)[name] else []) + [Signal(callback, defaultValue)]
      ensures forall n :: n != name ==> (n in signals <==> n in old(signals))
      ensures forall n :: n != name && n in signals ==> signals[n] == old(signals)[n]
    {
      if name !in signals {
        signals := signals[name := []];
      }
      signals := signals[name := signals[name] + [Signal(callback, defaultValue)]];
    }

    /** `emitSignal`: a name with no list does nothing; otherwise each
        listener, in order, fires and stores the arguments when they differ
        from what it last saw. Returns the callbacks invoked. */
    method EmitSignal(name: string, args: seq<Value>) returns (fired: seq<nat>)
      modifies this
      ensures name !in old(signals) ==> signals == old(signals) && fired == []
      ensures name in old(signals) ==>
        signals == old(signals)[name := Emitted(old(signals)[name], args)]
        && fired == Fired(old(signals)[name], args)
    {
      fired := [];
      if name !in signals {
        return;
      }
      var list := signals[name];
      ghost var before := list;
      var i := 0;
      while i < |list|
        invariant 0 <= i <= |list| == |before|
        invariant list == Emitted(before[..i], args) + before[i..]
        invariant fired == Fired(before[..i], args)
        invariant signals == old(signals)
      {
        EmitStep(before, i, list, args);
        if Fires(list[i], args) {
          fired := fired + [list[i].callback];
          list := list[i := Signal(list[i].callback, Args(args))];
        }
        i := i + 1;
      }
      assert before[..i] == before && before[i..] == [];
      assert list == Emitted(before, args);
      signals := signals[name := list];
    }
  }

  /** One listener of the emit loop: the `i`th listener, still as
      registered, is updated and reported exactly when it fires. */
  lemma EmitStep(before: seq<Signal>, i: nat, list: seq<Signal>, args: seq<Value>)
    requires i < |before| && list == Emitted(before[..i], args) + before[i..]
    ensures list[i] == before[i]
    ensures Emitted(before[..i + 1], args) + before[i + 1..]
         == if Fires(list[i], args) then list[i := Signal(list[i].callback, Args(args))] else list
    ensures Fired(before[..i + 1], args)
         == Fired(before[..i], args) + if Fires(list[i], args) then [list[i].callback] else []
  {
    var e := Emitted(before[..i], args);
    var one := Emitted([before[i]], args);
    assert before[..i + 1] == before[..i] + [before[i]];
    EmittedSnoc(before[..i], before[i], args);
    FiredSnoc(before[..i], before[i], args);
    assert list[i] == before[i] by { assert list[i] == before[i..][0]; }
    var r := e + one + before[i + 1..];
    var w := if Fires(list[i], args) then list[i := Signal(list[i].callback, Args(args))] else list;
    forall k | 0 <= k < |r|
      ensures r[k] == w[k]
    {
      if k < i {
        assert r[k] == e[k] == list[k];
      } else if k > i {
        assert r[k] == before[k] == list[k];
      }
    }
    assert r == w;
  }

  lemma {:induction false} EmittedSnoc(list: seq<Signal>, s: Signal, args: seq<Value>)
    ensures Emitted(list + [s], args) == Emitted(list, args) + Emitted([s], args)
  {
    if list != [] {
      assert (list + [s])[1..] == list[1..] + [s];
      EmittedSnoc(list[1..], s, args);
    }
  }

  lemma {:induction false} FiredSnoc(list: seq<Signal>, s: Signal, args: seq<Value>)
    ensures Fired(list + [s], args) == Fired(list, args) + Fired([s], args)
  {
    if list != [] {
      assert (list + [s])[1..] == list[1..] + [s];
      FiredSnoc(list[1..], s, args);
    }
  }

  /** The debug text of a `GameObject`: `log` replaces it only while debug
      mode is on, and `setDebugVisible` switches debug mode. */
  class DebugLabel {
    var isDebugMode: bool
    var text: string

    constructor (id: string)
      ensures !isDebugMode && text == "id: " + id
    {
      isDebugMode := false;
      text := "id: " + id;
    }

    method Log(message: string)
      modifies this
      ensures isDebugMode == old(isDebugMode)
      ensures text == if isDebugMode then message else old(text)
    {
      if isDebugMode {
        text := message;
      }
    }

    method SetDebugVisible(visible: bool)
      modifies this
      ensures isDebugMode == visible && text == old(text)
    {
      isDebugMode := visible;
    }
  }
}
