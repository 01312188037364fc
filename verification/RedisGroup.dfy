/**
 * The Redis bus as a consumer-group protocol, for the stream of one event type.
 *
 * Entries are numbered in stream order. A read with `>` hands out entries past
 * the group's mark and never again; a message leaves the pending list only by
 * XACK. The interval timer may start a consume loop while others are under way,
 * and any command may fail, which abandons the rest of the loop's batch.
 */
module RedisGroup {
  import opened Wrappers

  const READ_COUNT: nat := 10

  /** One handler call for one message. */
  datatype Call = Call(handlerName: string, ok: bool)

  datatype DeadLetter = DeadLetter(msg: nat, handlerName: string)

  /**
   * A consume loop under way: the live handler array it holds, the messages it
   * still has to dispatch, and how the dispatch of the first of them stands.
   */
  datatype Loop = Loop(handlers: seq<string>, todo: seq<nat>, cur: Option<Dispatch>)

  datatype Dispatch = Dispatch(next: nat, allSucceeded: bool)

  /** How the XADD of a dead letter can end. */
  datatype Sending = Sent | SentUnacknowledged | NotSent

  /** How XACK can end. */
  datatype Ack = Acked | AckedUnacknowledged | NotAcked

  datatype State = State(
    length: nat,                        // entries in the stream
    start: nat,                         // entries before the group was created
    mark: nat,                          // entries handed out so far
    pending: set<nat>,
    acked: set<nat>,
    loops: map<nat, Loop>,
    dispatched: seq<nat>,               // messages whose dispatch has begun, in order
    calls: map<nat, seq<Call>>,         // handler calls per message, in order
    finished: map<nat, seq<string>>,    // messages offered to every handler of the array, with that array
    letters: seq<DeadLetter>)           // the dead-letter stream

  datatype Action =
    | Publish
    | Read(w: nat, handlers: seq<string>, n: nat)
    | Begin(w: nat)
    | Handle(w: nat, ok: bool, letter: Sending)
    | Finish(w: nat, ack: Ack)
    | Joined(w: nat, handlerName: string)
    | Abandon(w: nat)

  function Created(length: nat): State {
    State(length, length, length, {}, {}, map[], [], map[], map[], [])
  }

  function CallsOf(calls: map<nat, seq<Call>>, m: nat): seq<Call> {
    if m in calls then calls[m] else []
  }

  function Range(lo: nat, hi: nat): (r: seq<nat>)
    requires lo <= hi
    ensures |r| == hi - lo && forall i :: 0 <= i < |r| ==> r[i] == lo + i
  {
    seq(hi - lo, i requires 0 <= i => lo + i)
  }

  function Put(loops: map<nat, Loop>, w: nat, l: Loop): map<nat, Loop> {
    if l.todo == [] then loops - {w} else loops[w := l]
  }

  predicate Busy(s: State, w: nat) {
    w in s.loops && s.loops[w].todo != [] && s.loops[w].cur.Some?
  }

  predicate Enabled(s: State, a: Action) {
    match a
    case Publish => true
    case Read(w, handlers, n) => w !in s.loops && handlers != [] && 1 <= n <= READ_COUNT && s.mark + n <= s.length
    case Begin(w) => w in s.loops && s.loops[w].todo != [] && s.loops[w].cur.None?
    case Handle(w, _, _) => Busy(s, w) && s.loops[w].cur.value.next < |s.loops[w].handlers|
    case Finish(w, _) => Busy(s, w) && s.loops[w].cur.value.next >= |s.loops[w].handlers|
    case Joined(w, _) => w in s.loops
    case Abandon(w) => w in s.loops
  }

  function Apply(s: State, a: Action): State
    requires Enabled(s, a)
  {
    match a
    case Publish => s.(length := s.length + 1)
    case Read(w, handlers, n) =>
      var ms := Range(s.mark, s.mark + n);
      s.(mark := s.mark + n,
         pending := s.pending + (set m | m in ms),
         loops := s.loops[w := Loop(handlers, ms, None)])
    case Begin(w) =>
      var l := s.loops[w];
      s.(dispatched := s.dispatched + [l.todo[0]],
         loops := s.loops[w := l.(cur := Some(Dispatch(0, true)))])
    case Handle(w, ok, letter) =>
      var l := s.loops[w];
      var m, d, name := l.todo[0], l.cur.value, l.handlers[l.cur.value.next];
      s.(calls := s.calls[m := CallsOf(s.calls, m) + [Call(name, ok)]],
         letters := if !ok && letter != NotSent then s.letters + [DeadLetter(m, name)] else s.letters,
         loops := if !ok && letter != Sent then s.loops - {w}
                  else s.loops[w := l.(cur := Some(Dispatch(d.next + 1, d.allSucceeded && ok)))])
    case Finish(w, ack) =>
      var l := s.loops[w];
      var m, all := l.todo[0], l.cur.value.allSucceeded;
      s.(finished := s.finished[m := l.handlers],
         pending := if all && !ack.NotAcked? then s.pending - {m} else s.pending,
         acked := if all && !ack.NotAcked? then s.acked + {m} else s.acked,
         loops := if all && !ack.Acked? then s.loops - {w} else Put(s.loops, w, Loop(l.handlers, l.todo[1..], None)))
    case Joined(w, handlerName) =>
      s.(loops := s.loops[w := s.loops[w].(handlers := s.loops[w].handlers + [handlerName])])
    case Abandon(w) => s.(loops := s.loops - {w})
  }

  predicate AllEnabled(s: State, acts: seq<Action>)
    decreases acts
  {
    acts == [] || (Enabled(s, acts[0]) && AllEnabled(Apply(s, acts[0]), acts[1..]))
  }

  function Run(s: State, acts: seq<Action>): State
    requires AllEnabled(s, acts)
    decreases acts
  {
    if acts == [] then s else Run(Apply(s, acts[0]), acts[1..])
  }

  /**
   * Whatever the handlers, the dead-letter stream and XACK answer, a step of the machine shows it;
   * an idle consumer can read up to ten entries, and a loop can be cut off at any time.
   */
  lemma EnvironmentIsFree(s: State, w: nat, handlers: seq<string>, n: nat, ok: bool, letter: Sending, ack: Ack)
    requires w in s.loops ==> s.loops[w].todo != []
    ensures Enabled(s, Publish)
    ensures w !in s.loops && handlers != [] && n <= s.length - s.mark ==> (Enabled(s, Read(w, handlers, n)) <==> 1 <= n <= 10)
    ensures w in s.loops ==>
              && Enabled(s, Abandon(w))
              && (Enabled(s, Begin(w)) || Enabled(s, Handle(w, ok, letter)) || Enabled(s, Finish(w, ack)))
  {
  }

  // ---------------------------------------------------------------------
  // The invariant
  // ---------------------------------------------------------------------

  function Names(calls: seq<Call>): (r: seq<string>)
    ensures |r| == |calls|
  {
    if calls == [] then [] else [calls[0].handlerName] + Names(calls[1..])
  }

  /** The names of the handlers that threw. */
  function Failed(calls: seq<Call>): seq<string> {
    if calls == [] then [] else (if calls[0].ok then [] else [calls[0].handlerName]) + Failed(calls[1..])
  }

  /** The handler names on the dead letters of one message. */
  function LettersOf(letters: seq<DeadLetter>, m: nat): seq<string> {
    if letters == [] then []
    else (if letters[0].msg == m then [letters[0].handlerName] else []) + LettersOf(letters[1..], m)
  }

  lemma {:induction false} OneMoreName(calls: seq<Call>, c: Call)
    ensures Names(calls + [c]) == Names(calls) + [c.handlerName]
  {
    if calls == [] {
      assert calls + [c] == [c] && [c][1..] == [];
    } else {
      assert calls + [c] == [calls[0]] + (calls[1..] + [c]);
      OneMoreName(calls[1..], c);
    }
  }

  lemma {:induction false} OneMoreFailed(calls: seq<Call>, c: Call)
    ensures Failed(calls + [c]) == Failed(calls) + if c.ok then [] else [c.handlerName]
  {
    if calls == [] {
      assert calls + [c] == [c] && [c][1..] == [];
    } else {
      assert (calls + [c])[0] == calls[0] && (calls + [c])[1..] == calls[1..] + [c];
      OneMoreFailed(calls[1..], c);
    }
  }

  lemma OneMoreCall(calls: seq<Call>, c: Call)
    ensures Names(calls + [c]) == Names(calls) + [c.handlerName]
    ensures Failed(calls + [c]) == Failed(calls) + if c.ok then [] else [c.handlerName]
  {
    OneMoreName(calls, c);
    OneMoreFailed(calls, c);
  }

  lemma {:induction false} OneMoreLetter(letters: seq<DeadLetter>, d: DeadLetter, m: nat)
    ensures LettersOf(letters + [d], m) == LettersOf(letters, m) + if d.msg == m then [d.handlerName] else []
  {
    if letters == [] {
      assert letters + [d] == [d] && [d][1..] == [];
    } else {
      assert letters + [d] == [letters[0]] + (letters[1..] + [d]);
      OneMoreLetter(letters[1..], d, m);
    }
  }

  /** Handed out, pending and acknowledged messages partition the stream since the group's creation. */
  ghost predicate Partition(s: State) {
    && s.start <= s.mark <= s.length
    && s.pending !! s.acked
    && (forall m :: m in s.pending || m in s.acked <==> s.start <= m < s.mark)
  }

  predicate NoRepeats(ms: seq<nat>) {
    forall i, j :: 0 <= i < j < |ms| ==> ms[i] != ms[j]
  }

  /** The messages of a loop are pending; only the first can have been dispatched, and it is not finished. */
  predicate LoopOk(s: State, l: Loop) {
    && l.todo != [] && NoRepeats(l.todo)
    && (forall i :: 0 <= i < |l.todo| ==> l.todo[i] in s.pending && l.todo[i] !in s.finished)
    && (forall i :: 0 <= i < |l.todo| && (i > 0 || l.cur.None?) ==> l.todo[i] !in s.dispatched)
    && (l.cur.Some? ==>
          var m, d := l.todo[0], l.cur.value;
          && m in s.dispatched && d.next <= |l.handlers|
          && Names(CallsOf(s.calls, m)) == l.handlers[..d.next]
          && (d.allSucceeded <==> Failed(CallsOf(s.calls, m)) == [])
          && LettersOf(s.letters, m) == Failed(CallsOf(s.calls, m)))
  }

  predicate Apart(l: Loop, l': Loop) {
    forall i, j :: 0 <= i < |l.todo| && 0 <= j < |l'.todo| ==> l.todo[i] != l'.todo[j]
  }

  /** A finished message was offered to each handler once, in order, with one dead letter per failure. */
  predicate FinishedOk(s: State, m: nat)
    requires m in s.finished
  {
    && m in s.dispatched
    && Names(CallsOf(s.calls, m)) == s.finished[m]
    && LettersOf(s.letters, m) == Failed(CallsOf(s.calls, m))
  }

  predicate HistoryOk(s: State) {
    && NoRepeats(s.dispatched)
    && (forall m :: m in s.dispatched ==> s.start <= m < s.mark)
    && (forall m :: m in s.calls ==> m in s.dispatched)
    && (forall i :: 0 <= i < |s.letters| ==> s.letters[i].msg in s.dispatched)
    && (forall m :: m in s.finished ==> FinishedOk(s, m))
    && (forall m :: m in s.acked ==> m in s.finished && Failed(CallsOf(s.calls, m)) == [])
  }

  predicate LoopsOk(s: State) {
    && (forall w :: w in s.loops ==> LoopOk(s, s.loops[w]))
    && (forall v, w :: v in s.loops && w in s.loops && v != w ==> Apart(s.loops[v], s.loops[w]))
  }

  ghost predicate Inv(s: State) {
    Partition(s) && HistoryOk(s) && LoopsOk(s)
  }

  lemma {:induction false} NoLetters(letters: seq<DeadLetter>, m: nat)
    requires forall i :: 0 <= i < |letters| ==> letters[i].msg != m
    ensures LettersOf(letters, m) == []
  {
    if letters != [] {
      NoLetters(letters[1..], m);
    }
  }

  lemma RangeMembers(lo: nat, hi: nat)
    requires lo <= hi
    ensures forall m :: m in Range(lo, hi) <==> lo <= m < hi
    ensures NoRepeats(Range(lo, hi))
  {
    forall m ensures m in Range(lo, hi) <==> lo <= m < hi {
      if lo <= m < hi {
        assert Range(lo, hi)[m - lo] == m;
      }
    }
  }

  lemma ReadKeepsHistory(s: State, s': State)
    requires HistoryOk(s) && s'.mark >= s.mark && s'.start == s.start
    requires s'.dispatched == s.dispatched && s'.calls == s.calls && s'.letters == s.letters
    requires s'.finished == s.finished && s'.acked == s.acked
    ensures HistoryOk(s')
  {
    hide NoRepeats, Names, Failed, LettersOf, CallsOf;
    forall k | k in s'.finished ensures FinishedOk(s', k) {
      assert FinishedOk(s, k);
    }
  }

  lemma ReadKeepsInv(s: State, w: nat, handlers: seq<string>, n: nat)
    requires Inv(s) && Enabled(s, Read(w, handlers, n))
    ensures Inv(Apply(s, Read(w, handlers, n)))
  {
    hide Range, NoRepeats, Names, Failed, LettersOf, CallsOf;
    var s' := Apply(s, Read(w, handlers, n));
    var ms := Range(s.mark, s.mark + n);
    RangeMembers(s.mark, s.mark + n);
    ReadKeepsHistory(s, s');
    forall v | v in s'.loops ensures LoopOk(s', s'.loops[v]) {
      if v != w {
        assert LoopOk(s, s.loops[v]);
      } else {
        assert forall i :: 0 <= i < |ms| ==> ms[i] in ms;
      }
    }
    forall v | v in s.loops ensures Apart(s.loops[v], s'.loops[w]) && Apart(s'.loops[w], s.loops[v]) {
      assert LoopOk(s, s.loops[v]);
      assert forall i :: 0 <= i < |ms| ==> ms[i] in ms;
    }
  }

  /** The step from s to s' touches nothing that is recorded of messages other than m. */
  ghost predicate OnlyTouches(s: State, s': State, m: nat) {
    forall k :: k != m ==>
      && (k in s.pending ==> k in s'.pending)
      && (k in s'.finished <==> k in s.finished)
      && (k in s'.dispatched <==> k in s.dispatched)
      && CallsOf(s'.calls, k) == CallsOf(s.calls, k)
      && LettersOf(s'.letters, k) == LettersOf(s.letters, k)
  }

  lemma OtherLoop(s: State, s': State, l: Loop, m: nat)
    requires LoopOk(s, l) && m !in l.todo && OnlyTouches(s, s', m)
    ensures LoopOk(s', l)
  {
    forall i | 0 <= i < |l.todo| ensures l.todo[i] in s'.pending && l.todo[i] !in s'.finished {
      assert l.todo[i] in l.todo;
    }
    forall i | 0 <= i < |l.todo| && (i > 0 || l.cur.None?) ensures l.todo[i] !in s'.dispatched {
      assert l.todo[i] in l.todo;
    }
    assert l.todo[0] in l.todo;
  }

  /** When loop w takes a step on its first message, all loops stay in order. */
  lemma LoopsAfter(s: State, s': State, w: nat)
    requires LoopsOk(s) && w in s.loops && OnlyTouches(s, s', s.loops[w].todo[0])
    requires forall v :: v in s'.loops ==> v in s.loops && (v != w ==> s'.loops[v] == s.loops[v])
    requires w in s'.loops ==> LoopOk(s', s'.loops[w]) && forall i :: 0 <= i < |s'.loops[w].todo| ==> s'.loops[w].todo[i] in s.loops[w].todo
    ensures LoopsOk(s')
  {
    var l := s.loops[w];
    forall v | v in s'.loops ensures LoopOk(s', s'.loops[v]) {
      if v != w {
        assert Apart(l, s.loops[v]);
        OtherLoop(s, s', s.loops[v], l.todo[0]);
      }
    }
    forall u, v | u in s'.loops && v in s'.loops && u != v ensures Apart(s'.loops[u], s'.loops[v]) {
      assert Apart(s.loops[u], s.loops[v]);
    }
  }

  lemma BeginOwnLoop(s: State, w: nat)
    requires HistoryOk(s) && Enabled(s, Begin(w)) && LoopOk(s, s.loops[w])
    ensures LoopOk(Apply(s, Begin(w)), Apply(s, Begin(w)).loops[w])
    ensures OnlyTouches(s, Apply(s, Begin(w)), s.loops[w].todo[0])
  {
    var l := s.loops[w];
    NoLetters(s.letters, l.todo[0]);
    assert l.todo[0] !in s.calls;
    assert forall i :: 0 < i < |l.todo| ==> l.todo[i] !in s.dispatched && l.todo[i] != l.todo[0];
  }

  lemma BeginKeepsHistory(s: State, w: nat)
    requires Partition(s) && HistoryOk(s) && Enabled(s, Begin(w)) && LoopOk(s, s.loops[w])
    ensures HistoryOk(Apply(s, Begin(w)))
  {
    assert s.loops[w].todo[0] in s.pending;
    assert forall k :: k in s.finished ==> FinishedOk(s, k);
  }

  lemma BeginEffects(s: State, w: nat)
    requires Enabled(s, Begin(w))
    ensures
      var s' := Apply(s, Begin(w));
      && s'.(dispatched := s.dispatched, loops := s.loops) == s
      && (forall v :: v in s'.loops ==> v in s.loops && (v != w ==> s'.loops[v] == s.loops[v]))
      && w in s'.loops && s'.loops[w].todo == s.loops[w].todo
  {
  }

  lemma BeginKeepsInv(s: State, w: nat)
    requires Inv(s) && Enabled(s, Begin(w))
    ensures Inv(Apply(s, Begin(w)))
  {
    hide Apply, HistoryOk, OnlyTouches;
    BeginEffects(s, w);
    assert LoopOk(s, s.loops[w]);
    BeginOwnLoop(s, w);
    BeginKeepsHistory(s, w);
    LoopsAfter(s, Apply(s, Begin(w)), w);
  }

  lemma LettersAfter(letters: seq<DeadLetter>, m: nat, name: string, sent: bool)
    ensures
      var letters' := if sent then letters + [DeadLetter(m, name)] else letters;
      && LettersOf(letters', m) == LettersOf(letters, m) + (if sent then [name] else [])
      && forall k :: k != m ==> LettersOf(letters', k) == LettersOf(letters, k)
  {
    if sent {
      OneMoreLetter(letters, DeadLetter(m, name), m);
      forall k | k != m ensures LettersOf(letters + [DeadLetter(m, name)], k) == LettersOf(letters, k) {
        OneMoreLetter(letters, DeadLetter(m, name), k);
      }
    }
  }

  lemma HandleTouches(s: State, w: nat, ok: bool, letter: Sending)
    requires Enabled(s, Handle(w, ok, letter))
    ensures OnlyTouches(s, Apply(s, Handle(w, ok, letter)), s.loops[w].todo[0])
  {
    var l := s.loops[w];
    LettersAfter(s.letters, l.todo[0], l.handlers[l.cur.value.next], !ok && letter != NotSent);
  }

  lemma HandleOwnLoop(s: State, w: nat, ok: bool, letter: Sending)
    requires Enabled(s, Handle(w, ok, letter)) && LoopOk(s, s.loops[w]) && (ok || letter == Sent)
    ensures LoopOk(Apply(s, Handle(w, ok, letter)), Apply(s, Handle(w, ok, letter)).loops[w])
  {
    hide Names, Failed, LettersOf;
    var l := s.loops[w];
    var m, d := l.todo[0], l.cur.value;
    OneMoreCall(CallsOf(s.calls, m), Call(l.handlers[d.next], ok));
    LettersAfter(s.letters, m, l.handlers[d.next], !ok);
    assert l.handlers[..d.next + 1] == l.handlers[..d.next] + [l.handlers[d.next]];
  }

  lemma HandleEffects(s: State, w: nat, ok: bool, letter: Sending)
    requires Enabled(s, Handle(w, ok, letter))
    ensures
      var s', m := Apply(s, Handle(w, ok, letter)), s.loops[w].todo[0];
      && s'.(calls := s.calls, letters := s.letters, loops := s.loops) == s
      && (forall v :: v in s'.loops ==> v in s.loops && (v != w ==> s'.loops[v] == s.loops[v]))
      && (w in s'.loops ==> (ok || letter == Sent) && s'.loops[w].todo == s.loops[w].todo)
      && (forall k :: k in s'.calls ==> k == m || k in s.calls)
      && (forall i :: 0 <= i < |s'.letters| ==> s'.letters[i].msg == m || s'.letters[i] in s.letters)
  {
  }

  lemma HandleKeepsInv(s: State, w: nat, ok: bool, letter: Sending)
    requires Inv(s) && Enabled(s, Handle(w, ok, letter))
    ensures Inv(Apply(s, Handle(w, ok, letter)))
  {
    hide Apply;
    var s' := Apply(s, Handle(w, ok, letter));
    HandleEffects(s, w, ok, letter);
    HandleTouches(s, w, ok, letter);
    assert LoopOk(s, s.loops[w]);
    if ok || letter == Sent {
      HandleOwnLoop(s, w, ok, letter);
    }
    LoopsAfter(s, s', w);
    HandleKeepsHistory(s, s', s.loops[w].todo[0]);
  }

  lemma HandleKeepsHistory(s: State, s': State, m: nat)
    requires HistoryOk(s) && m in s.dispatched && m !in s.finished && OnlyTouches(s, s', m)
    requires s'.start == s.start && s'.mark == s.mark
    requires s'.dispatched == s.dispatched && s'.finished == s.finished && s'.acked == s.acked
    requires forall k :: k in s'.calls ==> k == m || k in s.calls
    requires forall i :: 0 <= i < |s'.letters| ==> s'.letters[i].msg == m || s'.letters[i] in s.letters
    ensures HistoryOk(s')
  {
    forall i | 0 <= i < |s'.letters| ensures s'.letters[i].msg in s'.dispatched {
      if s'.letters[i].msg != m {
        var j :| 0 <= j < |s.letters| && s.letters[j] == s'.letters[i];
      }
    }
    forall k | k in s'.finished ensures FinishedOk(s', k) {
      assert FinishedOk(s, k);
    }
  }

  lemma FinishOwnLoop(s: State, w: nat, ack: Ack)
    requires Enabled(s, Finish(w, ack)) && LoopOk(s, s.loops[w])
    ensures
      var s' := Apply(s, Finish(w, ack));
      && OnlyTouches(s, s', s.loops[w].todo[0])
      && (w in s'.loops ==> LoopOk(s', s'.loops[w]) && s'.loops[w].todo == s.loops[w].todo[1..])
  {
  }

  lemma FinishKeepsHistory(s: State, w: nat, ack: Ack)
    requires Partition(s) && HistoryOk(s) && Enabled(s, Finish(w, ack)) && LoopOk(s, s.loops[w])
    ensures Partition(Apply(s, Finish(w, ack))) && HistoryOk(Apply(s, Finish(w, ack)))
  {
    var s', l := Apply(s, Finish(w, ack)), s.loops[w];
    assert l.handlers[..l.cur.value.next] == l.handlers;
    forall k | k in s'.finished ensures FinishedOk(s', k) {
      assert k != l.todo[0] ==> FinishedOk(s, k);
    }
  }

  lemma FinishKeepsInv(s: State, w: nat, ack: Ack)
    requires Inv(s) && Enabled(s, Finish(w, ack))
    ensures Inv(Apply(s, Finish(w, ack)))
  {
    FinishOwnLoop(s, w, ack);
    FinishKeepsHistory(s, w, ack);
    LoopsAfter(s, Apply(s, Finish(w, ack)), w);
  }

  lemma JoinedKeepsInv(s: State, w: nat, handlerName: string)
    requires Inv(s) && Enabled(s, Joined(w, handlerName))
    ensures Inv(Apply(s, Joined(w, handlerName)))
  {
    hide NoRepeats, Names, Failed, LettersOf, CallsOf;
    var s', l := Apply(s, Joined(w, handlerName)), s.loops[w];
    assert LoopOk(s, l);
    assert l.cur.Some? ==> (l.handlers + [handlerName])[..l.cur.value.next] == l.handlers[..l.cur.value.next];
    forall k | k in s'.finished ensures FinishedOk(s', k) {
      assert FinishedOk(s, k);
    }
    forall v | v in s'.loops ensures LoopOk(s', s'.loops[v]) {
      assert LoopOk(s, s.loops[v]);
    }
    forall u, v | u in s'.loops && v in s'.loops && u != v ensures Apart(s'.loops[u], s'.loops[v]) {
      assert Apart(s.loops[u], s.loops[v]);
    }
  }

  lemma StepKeepsInv(s: State, a: Action)
    requires Inv(s) && Enabled(s, a)
    ensures Inv(Apply(s, a))
  {
    hide Inv;
    match a
    case Read(w, handlers, n) => ReadKeepsInv(s, w, handlers, n);
    case Begin(w) => BeginKeepsInv(s, w);
    case Handle(w, ok, letter) => HandleKeepsInv(s, w, ok, letter);
    case Finish(w, ack) => FinishKeepsInv(s, w, ack);
    case Joined(w, handlerName) => JoinedKeepsInv(s, w, handlerName);
    case Publish => LoopsShrink(s, Apply(s, a));
    case Abandon(w) => LoopsShrink(s, Apply(s, a));
  }

  /** Longer streams and fewer loops. */
  lemma LoopsShrink(s: State, s': State)
    requires Inv(s) && s'.length >= s.length && s'.(length := s.length, loops := s.loops) == s
    requires forall v :: v in s'.loops ==> v in s.loops && s'.loops[v] == s.loops[v]
    ensures Inv(s')
  {
    hide NoRepeats, Names, Failed, LettersOf, Apart;
    assert forall k :: k in s.finished ==> FinishedOk(s, k);
    forall v | v in s'.loops ensures LoopOk(s', s'.loops[v]) {
      assert LoopOk(s, s.loops[v]);
    }
  }

  lemma {:induction false} RunKeepsInv(s: State, acts: seq<Action>)
    requires Inv(s) && AllEnabled(s, acts)
    ensures Inv(Run(s, acts)) && Run(s, acts).start == s.start
    decreases acts
  {
    if acts != [] {
      StepKeepsInv(s, acts[0]);
      RunKeepsInv(Apply(s, acts[0]), acts[1..]);
    }
  }

  /**
   * Over every run of a group created on a stream of any length, with any number of
   * overlapping loops: the messages since then are undelivered, pending or
   * acknowledged, and only one of these; each is dispatched at most once; an
   * acknowledged one succeeded with every handler; a fully dispatched one has
   * called each handler once, in order, with one dead letter per failure.
   */
  lemma GroupSafety(length: nat, acts: seq<Action>)
    requires AllEnabled(Created(length), acts)
    ensures
      var s := Run(Created(length), acts);
      && (forall m :: length <= m < s.length <==> (s.mark <= m < s.length || m in s.pending || m in s.acked))
      && s.pending !! s.acked
      && (forall m :: m in s.pending || m in s.acked ==> m < s.mark)
      && NoRepeats(s.dispatched)
      && (forall m :: m in s.dispatched ==> m in s.pending || m in s.acked)
      && (forall m :: m in s.acked ==> m in s.finished && forall i :: 0 <= i < |CallsOf(s.calls, m)| ==> CallsOf(s.calls, m)[i].ok)
      && (forall m :: m in s.finished ==>
            Names(CallsOf(s.calls, m)) == s.finished[m] && LettersOf(s.letters, m) == Failed(CallsOf(s.calls, m)))
  {
    RunKeepsInv(Created(length), acts);
    var s := Run(Created(length), acts);
    forall m | m in s.acked
      ensures m in s.finished && forall i :: 0 <= i < |CallsOf(s.calls, m)| ==> CallsOf(s.calls, m)[i].ok
    {
      NoneFailed(CallsOf(s.calls, m));
    }
    assert forall m :: m in s.finished ==> FinishedOk(s, m);
  }

  lemma {:induction false} NoneFailed(calls: seq<Call>)
    ensures Failed(calls) == [] <==> forall i :: 0 <= i < |calls| ==> calls[i].ok
  {
    if calls != [] {
      NoneFailed(calls[1..]);
      assert calls == [calls[0]] + calls[1..];
    }
  }

  // ---------------------------------------------------------------------
  // dispatchToHandlers
  // ---------------------------------------------------------------------

  /** What the handlers and the dead-letter stream answer, handler by handler. */
  datatype Answer = Answer(ok: bool, letter: Sending)

  /** A failure whose dead letter is not confirmed as sent ends the dispatch. */
  predicate CutsOff(a: Answer) {
    !a.ok && a.letter != Sent
  }

  /** How many handlers are called when the first k have been. */
  function Reached(handlers: seq<string>, answers: nat -> Answer, k: nat): (r: nat)
    ensures k <= |handlers| ==> k <= r <= |handlers|
    decreases |handlers| - k
  {
    if k >= |handlers| then |handlers|
    else if CutsOff(answers(k)) then k + 1
    else Reached(handlers, answers, k + 1)
  }

  function CallsUpTo(handlers: seq<string>, answers: nat -> Answer, n: nat): seq<Call>
    requires n <= |handlers|
  {
    if n == 0 then [] else CallsUpTo(handlers, answers, n - 1) + [Call(handlers[n - 1], answers(n - 1).ok)]
  }

  function LettersUpTo(m: nat, handlers: seq<string>, answers: nat -> Answer, n: nat): seq<DeadLetter>
    requires n <= |handlers|
  {
    if n == 0 then []
    else LettersUpTo(m, handlers, answers, n - 1) +
         if !answers(n - 1).ok && answers(n - 1).letter != NotSent then [DeadLetter(m, handlers[n - 1])] else []
  }

  /** The first n handlers returned normally. */
  predicate OkUpTo(answers: nat -> Answer, n: nat) {
    forall i :: 0 <= i < n ==> answers(i).ok
  }

  lemma UpToNothing(handlers: seq<string>, m: nat, answers: nat -> Answer)
    ensures CallsUpTo(handlers, answers, 0) == [] && LettersUpTo(m, handlers, answers, 0) == [] && OkUpTo(answers, 0)
  {
  }

  /** What one more handler adds. */
  lemma UpToNext(handlers: seq<string>, m: nat, answers: nat -> Answer, k: nat)
    requires k < |handlers|
    ensures CallsUpTo(handlers, answers, k + 1) == CallsUpTo(handlers, answers, k) + [Call(handlers[k], answers(k).ok)]
    ensures LettersUpTo(m, handlers, answers, k + 1) ==
            LettersUpTo(m, handlers, answers, k) +
            if !answers(k).ok && answers(k).letter != NotSent then [DeadLetter(m, handlers[k])] else []
    ensures OkUpTo(answers, k + 1) <==> OkUpTo(answers, k) && answers(k).ok
    ensures Reached(handlers, answers, k) == if CutsOff(answers(k)) then k + 1 else Reached(handlers, answers, k + 1)
  {
  }

  lemma NotAllOk(answers: nat -> Answer, k: nat, n: nat)
    requires k < n && !answers(k).ok
    ensures !OkUpTo(answers, n)
  {
  }

  lemma AllOkTells(answers: nat -> Answer, n: nat)
    ensures OkUpTo(answers, n) <==> forall i: nat :: i < n ==> answers(i).ok
  {
  }

  /** The dead letters of a dispatch: one for each failure whose letter is not known to be lost, in order. */
  lemma {:induction false} LettersTell(m: nat, handlers: seq<string>, answers: nat -> Answer, n: nat) returns (failed: seq<nat>)
    requires n <= |handlers|
    ensures |failed| == |LettersUpTo(m, handlers, answers, n)|
    ensures forall j, k :: 0 <= j < k < |failed| ==> failed[j] < failed[k]
    ensures forall j :: 0 <= j < |failed| ==>
              failed[j] < n && LettersUpTo(m, handlers, answers, n)[j] == DeadLetter(m, handlers[failed[j]])
    ensures forall i: nat :: i in failed <==> i < n && !answers(i).ok && answers(i).letter != NotSent
  {
    failed := [];
    if n > 0 {
      failed := LettersTell(m, handlers, answers, n - 1);
      if !answers(n - 1).ok && answers(n - 1).letter != NotSent {
        failed := failed + [n - 1];
      }
    }
  }

  class RedisStreamsEventBus {
    var pending: set<nat>
    var acked: set<nat>
    var letters: seq<DeadLetter>

    constructor ()
      ensures pending == {} && acked == {} && letters == []
    {
      pending, acked, letters := {}, {}, [];
    }

    method DispatchToHandlers(handlers: seq<string>, m: nat, answers: nat -> Answer, ack: Ack) returns (made: seq<Call>, threw: bool)
      modifies this
      ensures
        var r := Reached(handlers, answers, 0);
        && made == CallsUpTo(handlers, answers, r)
        && letters == old(letters) + LettersUpTo(m, handlers, answers, r)
        && (threw <==> (r > 0 && CutsOff(answers(r - 1))) || (OkUpTo(answers, |handlers|) && ack != Acked))
      ensures
        var acks := OkUpTo(answers, |handlers|) && ack != NotAcked;
        && pending == (if acks then old(pending) - {m} else old(pending))
        && acked == (if acks then old(acked) + {m} else old(acked))
      ensures |made| <= |handlers| && forall i: nat :: i < |made| ==> made[i] == Call(handlers[i], answers(i).ok)
      ensures forall i: nat :: i + 1 < |made| ==> answers(i).ok || answers(i).letter == Sent
      ensures |made| < |handlers| ==> |made| > 0 && !answers(|made| - 1).ok && answers(|made| - 1).letter != Sent
      ensures threw <==>
              (|made| > 0 && !answers(|made| - 1).ok && answers(|made| - 1).letter != Sent) ||
              ((forall i: nat :: i < |handlers| ==> answers(i).ok) && ack != Acked)
      ensures if (forall i: nat :: i < |handlers| ==> answers(i).ok) && ack != NotAcked
              then pending == old(pending) - {m} && acked == old(acked) + {m}
              else pending == old(pending) && acked == old(acked)
    {
      hide CallsUpTo, LettersUpTo, OkUpTo;
      AllOkTells(answers, |handlers|);
      var allSucceeded := true;
      made := [];
      UpToNothing(handlers, m, answers);
      for i := 0 to |handlers|
        invariant Reached(handlers, answers, i) == Reached(handlers, answers, 0)
        invariant made == CallsUpTo(handlers, answers, i)
        invariant |made| == i && forall k: nat :: k < i ==> made[k] == Call(handlers[k], answers(k).ok)
        invariant letters == old(letters) + LettersUpTo(m, handlers, answers, i)
        invariant pending == old(pending) && acked == old(acked)
        invariant allSucceeded <==> OkUpTo(answers, i)
        invariant forall k: nat :: k < i ==> !CutsOff(answers(k))
      {
        UpToNext(handlers, m, answers, i);
        made := made + [Call(handlers[i], answers(i).ok)];
        if !answers(i).ok {
          NotAllOk(answers, i, |handlers|);
          allSucceeded := false;
          if answers(i).letter != NotSent {
            letters := letters + [DeadLetter(m, handlers[i])];
          }
          if answers(i).letter != Sent {
            return made, true;
          }
        }
      }
      if allSucceeded {
        if ack != NotAcked {
          pending, acked := pending - {m}, acked + {m};
        }
        return made, ack != Acked;
      }
      return made, false;
    }
  }

  /** The machine's steps for one dispatch, from handler k on. */
  function DispatchActions(w: nat, handlers: seq<string>, answers: nat -> Answer, ack: Ack, k: nat): seq<Action>
    decreases |handlers| - k
  {
    if k >= |handlers| then [Finish(w, ack)]
    else [Handle(w, answers(k).ok, answers(k).letter)] +
         if CutsOff(answers(k)) then [] else DispatchActions(w, handlers, answers, ack, k + 1)
  }

  lemma Prepend(s: State, a: Action, rest: seq<Action>)
    requires Enabled(s, a) && AllEnabled(Apply(s, a), rest)
    ensures AllEnabled(s, [a] + rest) && Run(s, [a] + rest) == Run(Apply(s, a), rest)
  {
    assert ([a] + rest)[1..] == rest;
  }

  /** Loop w has begun to dispatch its first message and has called k handlers since `s0`. */
  predicate Underway(s0: State, s: State, w: nat, answers: nat -> Answer, k: nat) {
    && Busy(s, w) && s.loops[w].cur.value.next == k <= |s.loops[w].handlers|
    && var l := s.loops[w];
    && CallsOf(s.calls, l.todo[0]) == CallsOf(s0.calls, l.todo[0]) + CallsUpTo(l.handlers, answers, k)
    && s.letters == s0.letters + LettersUpTo(l.todo[0], l.handlers, answers, k)
    && s.pending == s0.pending && s.acked == s0.acked
    && (l.cur.value.allSucceeded <==> OkUpTo(answers, k))
  }

  lemma OneMoreUnderway(s0: State, s: State, w: nat, answers: nat -> Answer, k: nat)
    requires Underway(s0, s, w, answers, k) && k < |s.loops[w].handlers| && !CutsOff(answers(k))
    ensures
      var s' := Apply(s, Handle(w, answers(k).ok, answers(k).letter));
      && Underway(s0, s', w, answers, k + 1)
      && s'.loops[w].handlers == s.loops[w].handlers && s'.loops[w].todo == s.loops[w].todo
  {
    var h, m := s.loops[w].handlers, s.loops[w].todo[0];
    hide CallsUpTo, LettersUpTo, OkUpTo, Reached;
    UpToNext(h, m, answers, k);
  }

  /** After the actions from handler k on, the recorded calls, letters and sets are those of the whole dispatch. */
  predicate Dispatched(s0: State, s: State, w: nat, answers: nat -> Answer, ack: Ack, k: nat)
    requires Underway(s0, s, w, answers, k)
  {
    var h, m := s.loops[w].handlers, s.loops[w].todo[0];
    && AllEnabled(s, DispatchActions(w, h, answers, ack, k))
    && var s', r := Run(s, DispatchActions(w, h, answers, ack, k)), Reached(h, answers, 0);
    && CallsOf(s'.calls, m) == CallsOf(s0.calls, m) + CallsUpTo(h, answers, r)
    && s'.letters == s0.letters + LettersUpTo(m, h, answers, r)
    && var acks := OkUpTo(answers, |h|) && ack != NotAcked;
    && s'.pending == (if acks then s0.pending - {m} else s0.pending)
    && s'.acked == (if acks then s0.acked + {m} else s0.acked)
  }

  lemma DispatchEnds(s0: State, s: State, w: nat, answers: nat -> Answer, ack: Ack, k: nat)
    requires Underway(s0, s, w, answers, k) && k == |s.loops[w].handlers|
    requires Reached(s.loops[w].handlers, answers, k) == Reached(s.loops[w].handlers, answers, 0)
    ensures Dispatched(s0, s, w, answers, ack, k)
  {
    Prepend(s, Finish(w, ack), []);
    assert [Finish(w, ack)] + [] == [Finish(w, ack)];
  }

  lemma DispatchIsCutOff(s0: State, s: State, w: nat, answers: nat -> Answer, ack: Ack, k: nat)
    requires Underway(s0, s, w, answers, k) && k < |s.loops[w].handlers| && CutsOff(answers(k))
    requires Reached(s.loops[w].handlers, answers, k) == Reached(s.loops[w].handlers, answers, 0)
    ensures Dispatched(s0, s, w, answers, ack, k)
  {
    var a := Handle(w, answers(k).ok, answers(k).letter);
    Prepend(s, a, []);
    assert [a] + [] == [a];
    assert !OkUpTo(answers, |s.loops[w].handlers|);
  }

  /** What the method does to a message is what the machine's loop does in one undisturbed dispatch. */
  lemma {:induction false} DispatchIsARun(s0: State, s: State, w: nat, answers: nat -> Answer, ack: Ack, k: nat)
    requires Underway(s0, s, w, answers, k) && Reached(s.loops[w].handlers, answers, k) == Reached(s.loops[w].handlers, answers, 0)
    ensures Dispatched(s0, s, w, answers, ack, k)
    decreases |s.loops[w].handlers| - k
  {
    var h := s.loops[w].handlers;
    if k == |h| {
      DispatchEnds(s0, s, w, answers, ack, k);
    } else if CutsOff(answers(k)) {
      DispatchIsCutOff(s0, s, w, answers, ack, k);
    } else {
      var a := Handle(w, answers(k).ok, answers(k).letter);
      OneMoreUnderway(s0, s, w, answers, k);
      DispatchIsARun(s0, Apply(s, a), w, answers, ack, k + 1);
      Prepend(s, a, DispatchActions(w, h, answers, ack, k + 1));
    }
  }
}
