/**
 * The in-memory event bus and its handler registry.
 *
 * subscribe pushes onto the array that is already registered, unsubscribe puts a
 * new array in its place, and publish walks the array it found when it started.
 * A handler may therefore change the list that is being walked, or cut the walk
 * off from later changes.
 */
module InMemoryBus {
  import opened Counting

  datatype Handler = Handler(handlerName: string, identity: nat)

  /** A call on the registry. */
  datatype Op =
    | Subscribe(eventType: string, handler: Handler)
    | Unsubscribe(eventType: string, handlerName: string)

  type Registry = map<string, seq<Handler>>

  function Registered(reg: Registry, eventType: string): seq<Handler> {
    if eventType in reg then reg[eventType] else []
  }

  function Without(hs: seq<Handler>, handlerName: string): (r: seq<Handler>)
    ensures forall h :: h in r <==> h in hs && h.handlerName != handlerName
  {
    if hs == [] then []
    else (if hs[0].handlerName != handlerName then [hs[0]] else []) + Without(hs[1..], handlerName)
  }

  function AfterOp(reg: Registry, op: Op): Registry {
    match op
    case Subscribe(t, h) => reg[t := Registered(reg, t) + [h]]
    case Unsubscribe(t, name) => reg[t := Without(Registered(reg, t), name)]
  }

  /** Unsubscribing a name drops its handlers, every one; the others stay in their order, each as often as before. */
  lemma {:induction false} WithoutKeeps(hs: seq<Handler>, handlerName: string, i: nat) returns (kept: seq<nat>)
    requires i <= |hs|
    ensures |kept| == |Without(hs[i..], handlerName)|
    ensures forall j, k :: 0 <= j < k < |kept| ==> kept[j] < kept[k]
    ensures forall j :: 0 <= j < |kept| ==> i <= kept[j] < |hs| && Without(hs[i..], handlerName)[j] == hs[kept[j]]
    ensures forall k: nat :: i <= k < |hs| ==> (k in kept <==> hs[k].handlerName != handlerName)
    decreases |hs| - i
  {
    kept := [];
    if i < |hs| {
      kept := WithoutKeeps(hs, handlerName, i + 1);
      assert hs[i..][0] == hs[i] && hs[i..][1..] == hs[i + 1..];
      if hs[i].handlerName != handlerName {
        kept := [i] + kept;
      }
    }
  }

  /** What a call on the registry does to the handlers of each type. */
  lemma OpTells(reg: Registry, op: Op, eventType: string) returns (kept: seq<nat>)
    ensures var before, after := Registered(reg, eventType), Registered(AfterOp(reg, op), eventType);
      if op.eventType != eventType then after == before
      else if op.Subscribe? then after == before + [op.handler]
      else
        && |kept| == |after|
        && (forall j, k :: 0 <= j < k < |kept| ==> kept[j] < kept[k])
        && (forall j :: 0 <= j < |kept| ==> kept[j] < |before| && after[j] == before[kept[j]])
        && forall k: nat :: k < |before| ==> (k in kept <==> before[k].handlerName != op.handlerName)
  {
    kept := [];
    if op.Unsubscribe? {
      var before := Registered(reg, eventType);
      kept := WithoutKeeps(before, op.handlerName, 0);
      assert before[0..] == before;
    }
  }

  function AfterOps(reg: Registry, ops: seq<Op>): Registry
    decreases ops
  {
    if ops == [] then reg else AfterOps(AfterOp(reg, ops[0]), ops[1..])
  }

  /** The call unsubscribes from the type. */
  predicate IsCut(op: Op, eventType: string) {
    op.Unsubscribe? && op.eventType == eventType
  }

  /** Something of the type is unsubscribed. */
  predicate Cuts(ops: seq<Op>, eventType: string) {
    ops != [] && (IsCut(ops[0], eventType) || Cuts(ops[1..], eventType))
  }

  /** The handlers subscribed to a type before anything of that type is unsubscribed. */
  function Joining(ops: seq<Op>, eventType: string): seq<Handler> {
    if ops == [] then []
    else match ops[0]
      case Subscribe(t, h) => (if t == eventType then [h] else []) + Joining(ops[1..], eventType)
      case Unsubscribe(t, _) => if t == eventType then [] else Joining(ops[1..], eventType)
  }

  /** The registry calls made while each handler runs; later handlers make none. */
  type Script = seq<seq<Op>>

  function During(script: Script, k: nat): seq<Op> {
    if k < |script| then script[k] else []
  }

  /** Everything done to the registry while the first n handlers run. */
  function Done(script: Script, n: nat): seq<Op> {
    if n == 0 then [] else Done(script, n - 1) + During(script, n - 1)
  }

  function StillToDo(script: Script, k: nat): nat
    decreases |script| - k
  {
    if k >= |script| then 0 else |script[k]| + StillToDo(script, k + 1)
  }

  lemma {:induction false} OpsCompose(reg: Registry, a: seq<Op>, b: seq<Op>)
    ensures AfterOps(reg, a + b) == AfterOps(AfterOps(reg, a), b)
    decreases a
  {
    if a == [] {
      assert a + b == b;
    } else {
      assert (a + b)[1..] == a[1..] + b;
      OpsCompose(AfterOp(reg, a[0]), a[1..], b);
    }
  }

  lemma {:induction false} JoiningCompose(a: seq<Op>, b: seq<Op>, t: string)
    ensures Cuts(a + b, t) <==> Cuts(a, t) || Cuts(b, t)
    ensures Joining(a + b, t) == Joining(a, t) + if Cuts(a, t) then [] else Joining(b, t)
    ensures |Joining(a, t)| <= |a|
  {
    if a == [] {
      assert a + b == b;
    } else {
      assert (a + b)[1..] == a[1..] + b;
      JoiningCompose(a[1..], b, t);
    }
  }

  /** What one more call adds: at most as many handlers as it makes registry calls. */
  lemma NextCall(script: Script, k: nat, t: string)
    ensures Joining(Done(script, k), t) <= Joining(Done(script, k + 1), t)
    ensures |Joining(Done(script, k + 1), t)| + StillToDo(script, k + 1) <= |Joining(Done(script, k), t)| + StillToDo(script, k)
  {
    JoiningCompose(Done(script, k), During(script, k), t);
    JoiningCompose(During(script, k), [], t);
  }

  /** The registry calls up to, and without, the first that unsubscribes from the type. */
  function BeforeCut(ops: seq<Op>, eventType: string): seq<Op> {
    if ops == [] || IsCut(ops[0], eventType) then []
    else [ops[0]] + BeforeCut(ops[1..], eventType)
  }

  lemma {:induction false} BeforeCutIsPrefix(ops: seq<Op>, eventType: string)
    ensures BeforeCut(ops, eventType) <= ops
    ensures if Cuts(ops, eventType)
            then |BeforeCut(ops, eventType)| < |ops| && IsCut(ops[|BeforeCut(ops, eventType)|], eventType)
            else BeforeCut(ops, eventType) == ops
  {
    if ops != [] {
      BeforeCutIsPrefix(ops[1..], eventType);
      assert ops == [ops[0]] + ops[1..];
    }
  }

  lemma ListAfterOp(reg: Registry, op: Op, eventType: string)
    requires !IsCut(op, eventType)
    ensures Registered(AfterOp(reg, op), eventType) ==
            Registered(reg, eventType) + if op.Subscribe? && op.eventType == eventType then [op.handler] else []
  {
  }

  lemma {:induction false} ListBeforeCut(reg: Registry, ops: seq<Op>, eventType: string)
    ensures Registered(AfterOps(reg, BeforeCut(ops, eventType)), eventType) == Registered(reg, eventType) + Joining(ops, eventType)
    decreases ops
  {
    if ops != [] && !IsCut(ops[0], eventType) {
      hide AfterOp, Registered;
      var reg' := AfterOp(reg, ops[0]);
      ListBeforeCut(reg', ops[1..], eventType);
      ListAfterOp(reg, ops[0], eventType);
      var before := BeforeCut(ops[1..], eventType);
      assert BeforeCut(ops, eventType) == [ops[0]] + before && ([ops[0]] + before)[1..] == before;
      assert AfterOps(reg, [ops[0]] + before) == AfterOps(reg', before);
    }
  }

  /**
   * The list that a publish walks, told by the registry alone: it is the list that was
   * registered for the type just before the first unsubscription of that type, and the list
   * that is registered in the end when there is none.
   */
  lemma WalkedList(reg: Registry, ops: seq<Op>, eventType: string)
    ensures var n := |BeforeCut(ops, eventType)|;
            n <= |ops| &&
            Registered(AfterOps(reg, ops[..n]), eventType) == Registered(reg, eventType) + Joining(ops, eventType) &&
            (if Cuts(ops, eventType) then n < |ops| && IsCut(ops[n], eventType) else n == |ops|) &&
            forall i :: 0 <= i < n ==> !IsCut(ops[i], eventType)
  {
    hide AfterOps, Joining, Registered;
    ListBeforeCut(reg, ops, eventType);
    BeforeCutIsPrefix(ops, eventType);
    NoCutBefore(ops, eventType);
    assert ops[..|BeforeCut(ops, eventType)|] == BeforeCut(ops, eventType);
  }

  lemma {:induction false} NoCutBefore(ops: seq<Op>, eventType: string)
    ensures forall i :: 0 <= i < |BeforeCut(ops, eventType)| ==> !IsCut(BeforeCut(ops, eventType)[i], eventType)
  {
    if ops != [] {
      NoCutBefore(ops[1..], eventType);
    }
  }

  /** What one more registry call adds. */
  lemma OneMoreOp(reg: Registry, done: seq<Op>, op: Op, eventType: string)
    ensures AfterOps(reg, done + [op]) == AfterOp(AfterOps(reg, done), op)
    ensures Cuts(done + [op], eventType) <==> Cuts(done, eventType) || IsCut(op, eventType)
    ensures Joining(done + [op], eventType) ==
            Joining(done, eventType) +
            if !Cuts(done, eventType) && op.Subscribe? && op.eventType == eventType then [op.handler] else []
  {
    assert [op][0] == op && [op][1..] == [];
    OpsCompose(reg, done, [op]);
    JoiningCompose(done, [op], eventType);
  }

  lemma NothingDone(reg: Registry, script: Script, eventType: string)
    ensures AfterOps(reg, Done(script, 0)) == reg
    ensures Joining(Done(script, 0), eventType) == [] && !Cuts(Done(script, 0), eventType)
  {
  }

  lemma PrefixExtends(called: seq<Handler>, items: seq<Handler>, items': seq<Handler>)
    requires called <= items <= items'
    ensures called <= items'
  {
  }

  /** A JavaScript array of handlers: an object that more than one place may hold. */
  class HandlerList {
    var items: seq<Handler>

    constructor (items: seq<Handler>)
      ensures this.items == items
    {
      this.items := items;
    }
  }

  class InMemoryEventBus {
    var handlers: map<string, HandlerList>

    constructor ()
      ensures handlers == map[] && Valid()
    {
      handlers := map[];
    }

    ghost function Lists(): set<HandlerList>
      reads this
    {
      set t | t in handlers :: handlers[t]
    }

    /** No array is registered under two event types. */
    ghost predicate Valid()
      reads this
    {
      forall t, u :: t in handlers && u in handlers && t != u ==> handlers[t] != handlers[u]
    }

    ghost function View(): Registry
      reads this, Lists()
    {
      map t | t in handlers :: handlers[t].items
    }

    /** `live` is the array now registered for the type. */
    ghost predicate Attached(eventType: string, live: HandlerList)
      reads this
    {
      eventType in handlers && handlers[eventType] == live
    }

    /** Subscribing pushes onto the registered array, if there is one. */
    method Subscribe(eventType: string, handler: Handler)
      requires Valid()
      modifies this, Lists()
      ensures Valid() && fresh(Lists() - old(Lists()))
      ensures View() == AfterOp(old(View()), Op.Subscribe(eventType, handler))
      ensures eventType in old(handlers) ==> handlers == old(handlers)
      ensures eventType !in old(handlers) ==>
                eventType in handlers && fresh(handlers[eventType]) && handlers == old(handlers)[eventType := handlers[eventType]]
    {
      var existing;
      if eventType in handlers {
        existing := handlers[eventType];
      } else {
        existing := new HandlerList([]);
      }
      existing.items := existing.items + [handler];
      handlers := handlers[eventType := existing];
    }

    /** Unsubscribing registers a new array and leaves the old one as it was. */
    method Unsubscribe(eventType: string, handlerName: string)
      requires Valid()
      modifies this
      ensures Valid() && fresh(Lists() - old(Lists()))
      ensures View() == AfterOp(old(View()), Op.Unsubscribe(eventType, handlerName))
      ensures eventType in handlers && fresh(handlers[eventType]) && handlers == old(handlers)[eventType := handlers[eventType]]
    {
      var existing := if eventType in handlers then handlers[eventType].items else [];
      var filtered := new HandlerList(Without(existing, handlerName));
      handlers := handlers[eventType := filtered];
    }

    /**
     * While someone walks the array `live`, which was registered for the type and
     * held `items` when the registry was `reg`, the calls `done` have been made.
     */
    ghost predicate Walking(reg: Registry, items: seq<Handler>, done: seq<Op>, eventType: string, live: HandlerList)
      reads this, live, Lists()
    {
      && Valid()
      && View() == AfterOps(reg, done)
      && live.items == items + Joining(done, eventType)
      && (Attached(eventType, live) <==> !Cuts(done, eventType))
      && (Attached(eventType, live) || live !in Lists())
    }

    lemma StartsWalking(reg: Registry, script: Script, eventType: string, live: HandlerList)
      requires Valid() && Attached(eventType, live) && reg == View()
      ensures Walking(reg, Registered(reg, eventType), Done(script, 0), eventType, live)
    {
      hide AfterOps, Joining, Cuts;
      NothingDone(reg, script, eventType);
    }

    method PerformOne(op: Op, ghost reg: Registry, ghost items: seq<Handler>, ghost done: seq<Op>, ghost eventType: string, ghost live: HandlerList)
      requires Walking(reg, items, done, eventType, live)
      modifies this, Lists()
      ensures fresh(Lists() - old(Lists()))
      ensures Walking(reg, items, done + [op], eventType, live)
    {
      hide AfterOps, Cuts, Joining;
      OneMoreOp(reg, done, op, eventType);
      assert Attached(eventType, live) ==> View()[eventType] == live.items;
      match op {
        case Subscribe(t, h) =>
          Subscribe(t, h);
          assert Attached(eventType, live) ==> View()[eventType] == live.items;
        case Unsubscribe(t, name) => Unsubscribe(t, name);
      }
    }

    method Perform(ops: seq<Op>, ghost reg: Registry, ghost items: seq<Handler>, ghost done: seq<Op>, ghost eventType: string, ghost live: HandlerList)
      requires Walking(reg, items, done, eventType, live)
      modifies this, Lists()
      ensures fresh(Lists() - old(Lists()))
      ensures Walking(reg, items, done + ops, eventType, live)
    {
      assert done + [] == done;
      for i := 0 to |ops|
        invariant fresh(Lists() - old(Lists()))
        invariant Walking(reg, items, done + ops[..i], eventType, live)
      {
        PerformOne(ops[i], reg, items, done + ops[..i], eventType, live);
        assert done + ops[..i] + [ops[i]] == done + ops[..i + 1];
      }
      assert ops[..|ops|] == ops;
    }

    /**
     * `script` says what each handler does to the registry while it runs, and
     * `throws` which calls end in an exception; the exceptions are dropped.
     */
    method Publish(eventType: string, script: Script, throws: nat -> bool) returns (called: seq<Handler>, failures: nat)
      requires Valid()
      modifies this, Lists()
      ensures Valid() && fresh(Lists() - old(Lists()))
      ensures View() == AfterOps(old(View()), Done(script, |called|))
      ensures called == var initial := Registered(old(View()), eventType);
                        if initial == [] then [] else initial + Joining(Done(script, |called|), eventType)
      ensures failures == |set k: nat | k < |called| && throws(k)|
    {
      called, failures := [], 0;
      if eventType !in handlers || handlers[eventType].items == [] {
        return;
      }
      called, failures := Walk(eventType, handlers[eventType], script, throws, View());
      CountIsSize(|called|, throws);
    }

    /** The loop over the array: a `for ... of`, which looks at the length anew on every round. */
    method Walk(eventType: string, live: HandlerList, script: Script, throws: nat -> bool, ghost reg: Registry)
      returns (called: seq<Handler>, failures: nat)
      requires Valid() && Attached(eventType, live) && reg == View()
      modifies this, Lists()
      ensures fresh(Lists() - old(Lists()))
      ensures Walking(reg, Registered(reg, eventType), Done(script, |called|), eventType, live) && called == live.items
      ensures failures == CountBelow(|called|, throws)
    {
      called, failures := [], 0;
      var i := 0;
      hide Walking, Valid, StillToDo, Registered, Done, Attached;
      StartsWalking(reg, script, eventType, live);
      while i < |live.items|
        invariant i == |called| && called <= live.items && failures == CountBelow(i, throws)
        invariant fresh(Lists() - old(Lists()))
        invariant Walking(reg, Registered(reg, eventType), Done(script, i), eventType, live)
        decreases StillToDo(script, i) + |live.items| - i
      {
        ghost var items := live.items;
        called := called + [live.items[i]];
        var threw := Call(i, live, script, throws, reg, eventType);
        if threw {
          failures := failures + 1;
        }
        PrefixExtends(called, items, live.items);
        i := i + 1;
      }
    }

    /** One handler runs: the registry calls it makes, and whether it throws. */
    method Call(k: nat, live: HandlerList, script: Script, throws: nat -> bool, ghost reg: Registry, ghost eventType: string)
      returns (threw: bool)
      requires Walking(reg, Registered(reg, eventType), Done(script, k), eventType, live)
      modifies this, Lists()
      ensures fresh(Lists() - old(Lists()))
      ensures Walking(reg, Registered(reg, eventType), Done(script, k + 1), eventType, live)
      ensures threw == throws(k)
      ensures old(live.items) <= live.items
      ensures |live.items| + StillToDo(script, k + 1) <= |old(live.items)| + StillToDo(script, k)
    {
      Perform(During(script, k), reg, Registered(reg, eventType), Done(script, k), eventType, live);
      NextCall(script, k, eventType);
      return throws(k);
    }
  }
}
