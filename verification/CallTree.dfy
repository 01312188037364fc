/**
 * Publishing through the forwarding bus when the inner bus runs its handlers in
 * the same call: handlers may publish in turn, so publishing one event unfolds
 * into a tree of calls.
 */
module CallTree {
  import opened ForwardingBus

  /** The publishing of one event, with everything its handlers publish while they run. */
  datatype Publishing = Publishing(write: Write, runs: seq<HandlerRun>)

  /** One handler: what it publishes, in order, and whether it throws afterwards. */
  datatype HandlerRun = HandlerRun(publishes: seq<Publishing>, throws: bool)

  function PostOrder(p: Publishing): seq<Write>
    decreases p, 0
  {
    RunsOrder(p.runs) + [p.write]
  }

  function RunsOrder(runs: seq<HandlerRun>): seq<Write>
    decreases runs
  {
    if runs == [] then [] else
      var r := runs[0];
      PublishesOrder(r.publishes) + RunsOrder(runs[1..])
  }

  function PublishesOrder(ps: seq<Publishing>): seq<Write>
    decreases ps
  {
    if ps == [] then [] else PostOrder(ps[0]) + PublishesOrder(ps[1..])
  }

  class ReentrantBus {
    const outer: ForwardingEventBus

    constructor (outer: ForwardingEventBus)
      ensures this.outer == outer
    {
      this.outer := outer;
    }

    /** The forwarding bus: inner bus first, then the outbox. */
    method Publish(p: Publishing)
      modifies outer.outboxRepo`rows
      ensures outer.outboxRepo.rows == AfterWrites(old(outer.outboxRepo.rows), PostOrder(p), outer.outboxRepo.uniqueEvents)
      decreases p, 1
    {
      InnerPublish(p.runs);
      outer.WriteToOutbox(p.write);
      WritesCompose(old(outer.outboxRepo.rows), RunsOrder(p.runs), [p.write], outer.outboxRepo.uniqueEvents);
      assert [p.write][1..] == [];
    }

    /** The in-memory bus: every handler in turn; what a handler throws is logged and dropped. */
    method InnerPublish(runs: seq<HandlerRun>)
      modifies outer.outboxRepo`rows
      ensures outer.outboxRepo.rows == AfterWrites(old(outer.outboxRepo.rows), RunsOrder(runs), outer.outboxRepo.uniqueEvents)
      decreases runs, 2
    {
      for i := 0 to |runs|
        invariant outer.outboxRepo.rows == AfterWrites(old(outer.outboxRepo.rows), RunsOrder(runs[..i]), outer.outboxRepo.uniqueEvents)
      {
        var _ := Handle(runs[i]);
        OneMoreRun(runs, i);
        WritesCompose(old(outer.outboxRepo.rows), RunsOrder(runs[..i]), PublishesOrder(runs[i].publishes), outer.outboxRepo.uniqueEvents);
      }
      assert runs[..|runs|] == runs;
    }

    method Handle(run: HandlerRun) returns (threw: bool)
      modifies outer.outboxRepo`rows
      ensures threw == run.throws
      ensures outer.outboxRepo.rows == AfterWrites(old(outer.outboxRepo.rows), PublishesOrder(run.publishes), outer.outboxRepo.uniqueEvents)
      decreases run, 2
    {
      var ps := run.publishes;
      for j := 0 to |ps|
        invariant outer.outboxRepo.rows == AfterWrites(old(outer.outboxRepo.rows), PublishesOrder(ps[..j]), outer.outboxRepo.uniqueEvents)
      {
        Publish(ps[j]);
        OneMorePublish(ps, j);
        WritesCompose(old(outer.outboxRepo.rows), PublishesOrder(ps[..j]), PostOrder(ps[j]), outer.outboxRepo.uniqueEvents);
      }
      assert ps[..|ps|] == ps;
      return run.throws;
    }
  }

  lemma {:induction false} RunsSplit(a: seq<HandlerRun>, b: seq<HandlerRun>)
    ensures RunsOrder(a + b) == RunsOrder(a) + RunsOrder(b)
  {
    if a == [] {
      assert a + b == b;
    } else {
      assert a + b == [a[0]] + (a[1..] + b);
      RunsSplit(a[1..], b);
    }
  }

  lemma {:induction false} PublishesSplit(a: seq<Publishing>, b: seq<Publishing>)
    ensures PublishesOrder(a + b) == PublishesOrder(a) + PublishesOrder(b)
  {
    if a == [] {
      assert a + b == b;
    } else {
      assert a + b == [a[0]] + (a[1..] + b);
      PublishesSplit(a[1..], b);
    }
  }

  lemma OneMoreRun(runs: seq<HandlerRun>, i: nat)
    requires i < |runs|
    ensures RunsOrder(runs[..i + 1]) == RunsOrder(runs[..i]) + PublishesOrder(runs[i].publishes)
  {
    RunsSplit(runs[..i], [runs[i]]);
    assert runs[..i + 1] == runs[..i] + [runs[i]];
    assert RunsOrder([runs[i]]) == PublishesOrder(runs[i].publishes) + RunsOrder([]);
  }

  lemma OneMorePublish(ps: seq<Publishing>, j: nat)
    requires j < |ps|
    ensures PublishesOrder(ps[..j + 1]) == PublishesOrder(ps[..j]) + PostOrder(ps[j])
  {
    PublishesSplit(ps[..j], [ps[j]]);
    assert ps[..j + 1] == ps[..j] + [ps[j]];
    assert PublishesOrder([ps[j]]) == PostOrder(ps[j]) + PublishesOrder([]);
  }

  // ---------------------------------------------------------------------
  // What the order is, told by where each call of the tree ends up
  // ---------------------------------------------------------------------

  /** The j-th event published by the i-th handler. */
  datatype Branch = Branch(i: nat, j: nat)

  type Path = seq<Branch>

  predicate HasBranch(p: Publishing, b: Branch) {
    b.i < |p.runs| && b.j < |p.runs[b.i].publishes|
  }

  function Child(p: Publishing, b: Branch): Publishing
    requires HasBranch(p, b)
  {
    p.runs[b.i].publishes[b.j]
  }

  predicate HasPath(p: Publishing, path: Path)
    decreases path
  {
    path == [] || (HasBranch(p, path[0]) && HasPath(Child(p, path[0]), path[1..]))
  }

  function At(p: Publishing, path: Path): Publishing
    requires HasPath(p, path)
    decreases path
  {
    if path == [] then p else At(Child(p, path[0]), path[1..])
  }

  /** How many writes come before those of the child at `b`. */
  function Offset(p: Publishing, b: Branch): nat
    requires HasBranch(p, b)
  {
    |RunsOrder(p.runs[..b.i])| + |PublishesOrder(p.runs[b.i].publishes[..b.j])|
  }

  /** The place in the outbox order of the call at `path`. */
  function Place(p: Publishing, path: Path): nat
    requires HasPath(p, path)
    decreases path
  {
    if path == [] then |PostOrder(p)| - 1
    else Offset(p, path[0]) + Place(Child(p, path[0]), path[1..])
  }

  lemma ChildOrder(p: Publishing, b: Branch)
    requires HasBranch(p, b)
    ensures
      var k, c := Offset(p, b), PostOrder(Child(p, b));
      k + |c| < |PostOrder(p)| && PostOrder(p)[k..k + |c|] == c
  {
    hide RunsOrder, PublishesOrder;
    var ps := p.runs[b.i].publishes;
    RunsAround(p.runs, b.i);
    PublishesAround(ps, b.j);
    var before, c := RunsOrder(p.runs[..b.i]) + PublishesOrder(ps[..b.j]), PostOrder(ps[b.j]);
    var after := PublishesOrder(ps[b.j + 1..]) + RunsOrder(p.runs[b.i + 1..]) + [p.write];
    assert PostOrder(p) == before + c + after;
  }

  lemma RunsAround(runs: seq<HandlerRun>, i: nat)
    requires i < |runs|
    ensures RunsOrder(runs) == RunsOrder(runs[..i]) + PublishesOrder(runs[i].publishes) + RunsOrder(runs[i + 1..])
  {
    hide RunsOrder, PublishesOrder;
    OneMoreRun(runs, i);
    RunsSplit(runs[..i + 1], runs[i + 1..]);
    assert runs == runs[..i + 1] + runs[i + 1..];
  }

  lemma PublishesAround(ps: seq<Publishing>, j: nat)
    requires j < |ps|
    ensures PublishesOrder(ps) == PublishesOrder(ps[..j]) + PostOrder(ps[j]) + PublishesOrder(ps[j + 1..])
  {
    hide PublishesOrder, PostOrder;
    OneMorePublish(ps, j);
    PublishesSplit(ps[..j + 1], ps[j + 1..]);
    assert ps == ps[..j + 1] + ps[j + 1..];
  }

  /** Each call of the tree stands at its place. */
  lemma {:induction false} PlaceHoldsCall(p: Publishing, path: Path)
    requires HasPath(p, path)
    ensures Place(p, path) < |PostOrder(p)| && PostOrder(p)[Place(p, path)] == At(p, path).write
    decreases path
  {
    if path != [] {
      ChildOrder(p, path[0]);
      PlaceHoldsCall(Child(p, path[0]), path[1..]);
      var k, c := Offset(p, path[0]), PostOrder(Child(p, path[0]));
      assert PostOrder(p)[k..k + |c|][Place(Child(p, path[0]), path[1..])] == PostOrder(p)[Place(p, path)];
    }
  }

  /** Effects before cause: everything that a handler publishes is recorded before the event it handles. */
  lemma {:induction false} EffectsBeforeCause(p: Publishing, path: Path, below: Path)
    requires HasPath(p, path + below) && below != []
    ensures HasPath(p, path) && Place(p, path + below) < Place(p, path)
    decreases path
  {
    if path == [] {
      assert path + below == below;
      ChildOrder(p, below[0]);
      PlaceHoldsCall(Child(p, below[0]), below[1..]);
    } else {
      assert (path + below)[1..] == path[1..] + below;
      EffectsBeforeCause(Child(p, path[0]), path[1..], below);
    }
  }

  predicate Earlier(a: Branch, b: Branch) {
    a.i < b.i || (a.i == b.i && a.j < b.j)
  }

  lemma OffsetsGrow(p: Publishing, a: Branch, b: Branch)
    requires HasBranch(p, a) && HasBranch(p, b) && Earlier(a, b)
    ensures Offset(p, a) + |PostOrder(Child(p, a))| <= Offset(p, b)
  {
    var ps := p.runs[a.i].publishes;
    if a.i == b.i {
      assert ps[..b.j] == ps[..a.j] + ([ps[a.j]] + ps[a.j + 1..b.j]);
      PublishesSplit(ps[..a.j], [ps[a.j]] + ps[a.j + 1..b.j]);
    } else {
      assert ps == ps[..a.j] + ([ps[a.j]] + ps[a.j + 1..]);
      PublishesSplit(ps[..a.j], [ps[a.j]] + ps[a.j + 1..]);
      assert p.runs[..b.i] == p.runs[..a.i] + ([p.runs[a.i]] + p.runs[a.i + 1..b.i]);
      RunsSplit(p.runs[..a.i], [p.runs[a.i]] + p.runs[a.i + 1..b.i]);
    }
  }

  /** Events are recorded in the order in which they were published, handler by handler. */
  lemma {:induction false} SiblingsInOrder(p: Publishing, path: Path, a: Branch, underA: Path, b: Branch, underB: Path)
    requires HasPath(p, path + ([a] + underA)) && HasPath(p, path + ([b] + underB)) && Earlier(a, b)
    ensures Place(p, path + ([a] + underA)) < Place(p, path + ([b] + underB))
    decreases path
  {
    if path == [] {
      assert path + ([a] + underA) == [a] + underA && path + ([b] + underB) == [b] + underB;
      assert ([a] + underA)[1..] == underA && ([b] + underB)[1..] == underB;
      OffsetsGrow(p, a, b);
      PlaceHoldsCall(Child(p, a), underA);
    } else {
      assert (path + ([a] + underA))[1..] == path[1..] + ([a] + underA);
      assert (path + ([b] + underB))[1..] == path[1..] + ([b] + underB);
      SiblingsInOrder(Child(p, path[0]), path[1..], a, underA, b, underB);
    }
  }

  lemma {:induction false} BranchAt(runs: seq<HandlerRun>, k: nat) returns (b: Branch)
    requires k < |RunsOrder(runs)|
    ensures b.i < |runs| && b.j < |runs[b.i].publishes|
    ensures
      var start := |RunsOrder(runs[..b.i])| + |PublishesOrder(runs[b.i].publishes[..b.j])|;
      start <= k < start + |PostOrder(runs[b.i].publishes[b.j])|
  {
    var ps := runs[0].publishes;
    if k < |PublishesOrder(ps)| {
      var j := PublishAt(ps, k);
      b := Branch(0, j);
    } else {
      var rest := BranchAt(runs[1..], k - |PublishesOrder(ps)|);
      b := Branch(rest.i + 1, rest.j);
      assert runs[..b.i] == [runs[0]] + runs[1..][..rest.i];
      RunsSplit([runs[0]], runs[1..][..rest.i]);
      assert [runs[0]][1..] == [];
    }
  }

  lemma {:induction false} PublishAt(ps: seq<Publishing>, k: nat) returns (j: nat)
    requires k < |PublishesOrder(ps)|
    ensures j < |ps|
    ensures |PublishesOrder(ps[..j])| <= k < |PublishesOrder(ps[..j])| + |PostOrder(ps[j])|
  {
    if k < |PostOrder(ps[0])| {
      j := 0;
    } else {
      var rest := PublishAt(ps[1..], k - |PostOrder(ps[0])|);
      j := rest + 1;
      assert ps[..j] == [ps[0]] + ps[1..][..rest];
      PublishesSplit([ps[0]], ps[1..][..rest]);
      assert [ps[0]][1..] == [];
    }
  }

  /** Every place of the order belongs to a call of the tree: nothing is recorded but what was published. */
  lemma {:induction false} EveryPlaceIsACall(p: Publishing, k: nat) returns (path: Path)
    requires k < |PostOrder(p)|
    ensures HasPath(p, path) && Place(p, path) == k
    decreases p
  {
    if k == |PostOrder(p)| - 1 {
      path := [];
    } else {
      var b := BranchAt(p.runs, k);
      var below := EveryPlaceIsACall(Child(p, b), k - Offset(p, b));
      path := [b] + below;
      assert path[1..] == below;
    }
  }
}
