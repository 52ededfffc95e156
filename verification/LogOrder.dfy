/** In which order the logging thread delivers what it takes from its queue, and exactly when it keeps that order. */
module LogOrder {
  import opened LogMerging
  import opened Wrappers

  /** By the turns at which they were taken: the chunks that are pending, and what went into each message sent. */
  datatype Origins = Origins(out: seq<nat>, err: seq<nat>, sent: seq<seq<nat>>)
  {
    function Pending(s: Stream): seq<nat> {
      if s.Out? then out else err
    }
  }

  predicate IsChunk(e: Event, s: Stream) {
    e.Got? && e.item.level == LevelOf(s)
  }

  predicate IsOrdinary(e: Event) {
    e.Got? && !IsChunk(e, Out) && !IsChunk(e, Err)
  }

  function TakeOrigins(o: Origins, n: nat, e: Event): Origins
    requires e.Got?
  {
    if IsChunk(e, Out) then o.(out := o.out + [n])
    else if IsChunk(e, Err) then o.(err := o.err + [n])
    else if e.ok then o.(sent := o.sent + [[n]])
    else o
  }

  function Close(o: Origins, s: Stream): Origins {
    if o.Pending(s) == [] then o
    else if s.Out? then o.(sent := o.sent + [o.out], out := [])
    else o.(sent := o.sent + [o.err], err := [])
  }

  /** What turn `n` means for the origins. */
  function StepOrigins(t: Thread, o: Origins, n: nat, e: Event): Origins {
    if !t.alive then o
    else
      match e
      case Got(_, _) => TakeOrigins(o, n, e)
      case Empty(outOk, errOk, _, _) =>
        var u := if outOk then Close(o, Out) else o;
        if Flush(t, Out, outOk).alive && errOk then Close(u, Err) else u
  }

  function OriginsOf(es: seq<Event>): Origins {
    if es == [] then Origins([], [], [])
    else
      var n := |es| - 1;
      StepOrigins(Run(es[..n]), OriginsOf(es[..n]), n, es[n])
  }

  // ---------------------------------------------------------------------
  // The origins are right
  // ---------------------------------------------------------------------

  ghost predicate Chunks(es: seq<Event>, s: Stream, from: seq<nat>) {
    forall k :: 0 <= k < |from| ==> from[k] < |es| && IsChunk(es[from[k]], s)
  }

  function Items(es: seq<Event>, from: seq<nat>): seq<Item>
    requires forall k :: 0 <= k < |from| ==> from[k] < |es| && es[from[k]].Got?
  {
    seq(|from|, k requires 0 <= k < |from| => es[from[k]].item)
  }

  /** `m` was made of what was taken at the turns `from`. */
  ghost predicate MadeOf(es: seq<Event>, m: Sent, from: seq<nat>) {
    match m
    case Direct(item) =>
      |from| == 1 && from[0] < |es| && IsOrdinary(es[from[0]]) && item == es[from[0]].item
    case Merged(s, item) =>
      from != [] && Chunks(es, s, from) && item == Joined(Items(es, from), MergedLevel(s))
  }

  ghost predicate Increasing(from: seq<nat>) {
    forall k, l :: 0 <= k < l < |from| ==> from[k] < from[l]
  }

  ghost predicate PendingOf(es: seq<Event>, pending: Option<Item>, s: Stream, from: seq<nat>) {
    && Chunks(es, s, from) && Increasing(from)
    && pending == if from == [] then None else Some(Joined(Items(es, from), LevelOf(s)))
  }

  /** No turn is both pending and sent. */
  ghost predicate Apart(pending: seq<nat>, sent: seq<seq<nat>>) {
    forall m, i :: 0 <= m < |sent| && i in sent[m] ==> i !in pending
  }

  ghost predicate Explains(es: seq<Event>, t: Thread, o: Origins) {
    && |o.sent| == |t.sent|
    && (forall m :: 0 <= m < |o.sent| ==> MadeOf(es, t.sent[m], o.sent[m]))
    && PendingOf(es, t.out, Out, o.out) && PendingOf(es, t.err, Err, o.err)
    && Apart(o.out, o.sent) && Apart(o.err, o.sent)
  }

  lemma ItemsGrow(es: seq<Event>, e: Event, from: seq<nat>)
    requires forall k :: 0 <= k < |from| ==> from[k] < |es| && es[from[k]].Got?
    ensures Items(es + [e], from) == Items(es, from)
  {
  }

  lemma MadeOfGrows(es: seq<Event>, e: Event, m: Sent, from: seq<nat>)
    requires MadeOf(es, m, from)
    ensures MadeOf(es + [e], m, from)
  {
    if m.Merged? {
      ItemsGrow(es, e, from);
    }
  }

  lemma PendingOfGrows(es: seq<Event>, e: Event, pending: Option<Item>, s: Stream, from: seq<nat>)
    requires PendingOf(es, pending, s, from)
    ensures PendingOf(es + [e], pending, s, from)
  {
    ItemsGrow(es, e, from);
  }

  lemma ExplainsGrows(es: seq<Event>, e: Event, t: Thread, o: Origins)
    requires Explains(es, t, o)
    ensures Explains(es + [e], t, o)
  {
    forall m | 0 <= m < |o.sent| ensures MadeOf(es + [e], t.sent[m], o.sent[m]) {
      MadeOfGrows(es, e, t.sent[m], o.sent[m]);
    }
    PendingOfGrows(es, e, t.out, Out, o.out);
    PendingOfGrows(es, e, t.err, Err, o.err);
  }

  /** One more chunk of a pending run. */
  lemma PendingTakes(es: seq<Event>, e: Event, pending: Option<Item>, s: Stream, from: seq<nat>)
    requires PendingOf(es, pending, s, from) && IsChunk(e, s)
    ensures PendingOf(es + [e], Append(pending, e.item), s, from + [|es|])
  {
    var all, items := es + [e], Items(es, from);
    ItemsGrow(es, e, from);
    assert Items(all, from + [|es|]) == items + [e.item];
    JoinedPush(items, e.item, LevelOf(s));
  }

  lemma TakeExplains(es: seq<Event>, t: Thread, o: Origins, e: Event)
    requires Explains(es, t, o) && e.Got?
    ensures Explains(es + [e], Take(t, e.item, e.ok), TakeOrigins(o, |es|, e))
  {
    ExplainsGrows(es, e, t, o);
    SentIsPast(es, t, o);
    if IsOrdinary(e) {
      TakeOrdinary(es, t, o, e);
    } else if IsChunk(e, Out) {
      PendingTakes(es, e, t.out, Out, o.out);
    } else {
      PendingTakes(es, e, t.err, Err, o.err);
    }
  }

  lemma TakeOrdinary(es: seq<Event>, t: Thread, o: Origins, e: Event)
    requires Explains(es + [e], t, o) && Explains(es, t, o) && IsOrdinary(e)
    ensures Explains(es + [e], Take(t, e.item, e.ok), TakeOrigins(o, |es|, e))
  {
    if e.ok {
      assert MadeOf(es + [e], Direct(e.item), [|es|]);
    }
  }

  lemma SentIsPast(es: seq<Event>, t: Thread, o: Origins)
    requires Explains(es, t, o)
    ensures forall m, i :: 0 <= m < |o.sent| && i in o.sent[m] ==> i < |es|
    ensures forall m :: 0 <= m < |o.sent| ==> o.sent[m] != []
  {
    forall m, i | 0 <= m < |o.sent| && i in o.sent[m] ensures i < |es| {
      assert MadeOf(es, t.sent[m], o.sent[m]);
    }
    forall m | 0 <= m < |o.sent| ensures o.sent[m] != [] {
      assert MadeOf(es, t.sent[m], o.sent[m]);
    }
  }

  lemma CloseExplains(es: seq<Event>, t: Thread, o: Origins, s: Stream)
    requires Explains(es, t, o) && t.alive
    ensures Explains(es, Flush(t, s, true), Close(o, s))
  {
    var from := o.Pending(s);
    if from != [] {
      assert MadeOf(es, Merged(s, t.Pending(s).value.(level := MergedLevel(s))), from);
    }
  }

  lemma StepExplains(es: seq<Event>, t: Thread, o: Origins, e: Event)
    requires Explains(es, t, o)
    ensures Explains(es + [e], Step(t, e), StepOrigins(t, o, |es|, e))
  {
    ExplainsGrows(es, e, t, o);
    if t.alive {
      if e.Got? {
        TakeExplains(es, t, o, e);
      } else {
        var u, p := Flush(t, Out, e.outOk), if e.outOk then Close(o, Out) else o;
        if e.outOk {
          CloseExplains(es + [e], t, o, Out);
        }
        if u.alive && e.errOk {
          CloseExplains(es + [e], u, p, Err);
        }
      }
    }
  }

  /**
   * Every message sent is the ordinary item, or the chunks of its stream
   * joined, that its origins say; so is what is pending; and nothing is both.
   */
  lemma {:induction false} OriginsExplain(es: seq<Event>)
    ensures Explains(es, Run(es), OriginsOf(es))
  {
    if es != [] {
      var n := |es| - 1;
      OriginsExplain(es[..n]);
      StepExplains(es[..n], Run(es[..n]), OriginsOf(es[..n]), es[n]);
      assert es == es[..n] + [es[n]];
    }
  }

  // ---------------------------------------------------------------------
  // What is pending
  // ---------------------------------------------------------------------

  /** The chunk of turn `i` has not been followed by a turn without an item. */
  ghost predicate Waits(es: seq<Event>, s: Stream, i: nat) {
    i < |es| && IsChunk(es[i], s) && forall j :: i <= j < |es| ==> es[j].Got?
  }

  lemma WaitsNext(es: seq<Event>, e: Event, s: Stream, i: nat)
    ensures Waits(es + [e], s, i) <==> e.Got? && (Waits(es, s, i) || (i == |es| && IsChunk(e, s)))
  {
    var all := es + [e];
    assert all[|es|] == e;
    if Waits(all, s, i) && i < |es| {
      assert forall j :: i <= j < |es| ==> es[j] == all[j];
    }
  }

  lemma PendingTaken(o: Origins, n: nat, e: Event, s: Stream, i: nat)
    requires e.Got?
    ensures i in TakeOrigins(o, n, e).Pending(s) <==> i in o.Pending(s) || (i == n && IsChunk(e, s))
  {
  }

  /** A turn without an item that the thread survives leaves nothing pending. */
  lemma PendingClosed(t: Thread, o: Origins, n: nat, e: Event)
    requires t.alive && e.Empty? && Step(t, e).alive
    requires (t.out.None? <==> o.out == []) && (t.err.None? <==> o.err == [])
    ensures StepOrigins(t, o, n, e).out == [] && StepOrigins(t, o, n, e).err == []
  {
  }

  lemma PendingNext(es: seq<Event>, e: Event, s: Stream, i: nat)
    requires Run(es).alive && Step(Run(es), e).alive
    ensures i in StepOrigins(Run(es), OriginsOf(es), |es|, e).Pending(s)
       <==> e.Got? && (i in OriginsOf(es).Pending(s) || (i == |es| && IsChunk(e, s)))
  {
    OriginsExplain(es);
    if e.Got? {
      PendingTaken(OriginsOf(es), |es|, e, s, i);
    } else {
      PendingClosed(Run(es), OriginsOf(es), |es|, e);
    }
  }

  /** While the thread goes on, the chunks of a stream that are pending are those taken since the last empty turn. */
  lemma {:induction false} PendingWaits(es: seq<Event>, s: Stream, i: nat)
    requires Run(es).alive
    ensures i in OriginsOf(es).Pending(s) <==> Waits(es, s, i)
  {
    if es != [] {
      var n := |es| - 1;
      var init, e := es[..n], es[n];
      assert es == init + [e];
      assert Run(init).alive;
      PendingWaits(init, s, i);
      WaitsNext(init, e, s, i);
      PendingNext(init, e, s, i);
    }
  }

  ghost predicate Idle(es: seq<Event>) {
    forall s, i :: !Waits(es, s, i)
  }

  lemma IdleIff(es: seq<Event>)
    requires Run(es).alive
    ensures Idle(es) <==> Run(es).out.None? && Run(es).err.None?
  {
    var o := OriginsOf(es);
    OriginsExplain(es);
    forall s, i ensures i in o.Pending(s) <==> Waits(es, s, i) {
      PendingWaits(es, s, i);
    }
    if o.out != [] {
      assert Waits(es, Out, o.out[0]) by { assert o.out[0] in o.Pending(Out); }
    }
    if o.err != [] {
      assert Waits(es, Err, o.err[0]) by { assert o.err[0] in o.Pending(Err); }
    }
  }

  ghost predicate WasSent(o: Origins, i: nat) {
    exists m :: 0 <= m < |o.sent| && i in o.sent[m]
  }

  /** What has been sent stays sent. */
  lemma SentStays(o: Origins, o': Origins, i: nat)
    requires o.sent <= o'.sent && WasSent(o, i)
    ensures WasSent(o', i)
  {
    var m :| 0 <= m < |o.sent| && i in o.sent[m];
    assert o'.sent[m] == o.sent[m];
  }

  lemma StepSends(t: Thread, o: Origins, n: nat, e: Event)
    ensures o.sent <= StepOrigins(t, o, n, e).sent
  {
  }

  /** A chunk that stops being pending has been sent. */
  lemma LeavesSent(t: Thread, o: Origins, n: nat, e: Event, s: Stream, i: nat)
    requires i in o.Pending(s) && i !in StepOrigins(t, o, n, e).Pending(s)
    ensures WasSent(StepOrigins(t, o, n, e), i)
  {
    var sent := StepOrigins(t, o, n, e).sent;
    if s.Out? {
      assert sent[|o.sent|] == o.out;
    } else {
      assert sent[|sent| - 1] == o.err;
    }
  }

  lemma {:induction false} ChunkGoesOn(es: seq<Event>, s: Stream, i: nat)
    requires Run(es).alive && i < |es| && IsChunk(es[i], s)
    ensures i in OriginsOf(es).Pending(s) || WasSent(OriginsOf(es), i)
  {
    var n := |es| - 1;
    var init, e := es[..n], es[n];
    assert Run(init).alive;
    var o, o' := OriginsOf(init), OriginsOf(es);
    if i < n {
      ChunkGoesOn(init, s, i);
      StepSends(Run(init), o, n, e);
      if WasSent(o, i) {
        SentStays(o, o', i);
      } else if i !in o'.Pending(s) {
        LeavesSent(Run(init), o, n, e, s, i);
      }
    } else {
      PendingTaken(o, n, e, s, i);
    }
  }

  /**
   * An ordinary item that the server accepts goes out at once. It is sent
   * after every chunk taken before it if and only if no chunk is pending at
   * that turn, i.e. a turn without an item has come since the last chunk.
   */
  lemma OrdinaryInOrderIff(es: seq<Event>, item: Item)
    requires Run(es).alive && IsOrdinary(Got(item, true))
    ensures Run(es + [Got(item, true)]).sent == Run(es).sent + [Direct(item)]
    ensures (forall s, i :: 0 <= i < |es| && IsChunk(es[i], s) ==> WasSent(OriginsOf(es), i)) <==> Idle(es)
    ensures Idle(es) <==> Run(es).out.None? && Run(es).err.None?
  {
    var o, all := OriginsOf(es), es + [Got(item, true)];
    assert all[..|es|] == es;
    IdleIff(es);
    OriginsExplain(es);
    if Idle(es) {
      forall s, i | 0 <= i < |es| && IsChunk(es[i], s) ensures WasSent(o, i) {
        ChunkGoesOn(es, s, i);
      }
    } else {
      var s, i :| Waits(es, s, i);
      PendingWaits(es, s, i);
      assert !WasSent(o, i);
    }
  }

  // ---------------------------------------------------------------------
  // Order
  // ---------------------------------------------------------------------

  /** Each message was sent after everything that had begun before it, sent or still pending. */
  ghost predicate NothingOvertaken(o: Origins) {
    && (forall m :: 0 <= m < |o.sent| ==> o.sent[m] != [])
    && (forall m, n :: 0 <= m < n < |o.sent| ==> o.sent[m][0] < o.sent[n][0])
    && (forall m :: 0 <= m < |o.sent| && o.out != [] ==> o.sent[m][0] < o.out[0])
    && (forall m :: 0 <= m < |o.sent| && o.err != [] ==> o.sent[m][0] < o.err[0])
  }

  /** Of what waits, standard output began first. */
  ghost predicate OutBegan(es: seq<Event>) {
    forall i :: Waits(es, Err, i) ==> exists k :: k < i && Waits(es, Out, k)
  }

  /** When nothing waits for an ordinary message to pass it, and no waiting stderr for newer stdout. */
  ghost predicate KeepsOrder(es: seq<Event>, e: Event) {
    match e
    case Got(_, ok) => IsOrdinary(e) && ok ==> Idle(es)
    case Empty(outOk, _, _, _) => outOk && (exists k :: Waits(es, Out, k)) ==> OutBegan(es)
  }

  lemma OutBeganIff(es: seq<Event>)
    requires Run(es).alive
    ensures
      var o := OriginsOf(es);
      && ((exists k :: Waits(es, Out, k)) <==> o.out != [])
      && (o.out != [] ==> (OutBegan(es) <==> o.err == [] || o.out[0] < o.err[0]))
  {
    var o := OriginsOf(es);
    OriginsExplain(es);
    forall s, i ensures i in o.Pending(s) <==> Waits(es, s, i) {
      PendingWaits(es, s, i);
    }
    if o.out != [] {
      assert o.out[0] in o.Pending(Out);
      if o.err != [] {
        assert o.err[0] in o.Pending(Err);
      }
      if k :| Waits(es, Out, k) && o.err != [] && k < o.err[0] {
        assert k in o.Pending(Out);
      }
      forall i | Waits(es, Err, i) ensures o.err != [] && o.err[0] <= i {
        assert i in o.Pending(Err);
      }
    }
  }

  lemma StepInOrder(es: seq<Event>, e: Event)
    requires Run(es).alive
    ensures NothingOvertaken(StepOrigins(Run(es), OriginsOf(es), |es|, e))
       <==> NothingOvertaken(OriginsOf(es)) && KeepsOrder(es, e)
  {
    if e.Got? {
      TakeStepInOrder(es, e);
    } else {
      EmptyStepInOrder(es, e);
    }
  }

  /** Everything sent or pending began before now. */
  lemma BeganBefore(es: seq<Event>)
    ensures
      var o := OriginsOf(es);
      && (forall m :: 0 <= m < |o.sent| ==> o.sent[m] != [] && o.sent[m][0] < |es|)
      && (o.out != [] ==> o.out[0] < |es|) && (o.err != [] ==> o.err[0] < |es|)
  {
    OriginsExplain(es);
    SentIsPast(es, Run(es), OriginsOf(es));
  }

  lemma IdleOrigins(es: seq<Event>)
    requires Run(es).alive
    ensures Idle(es) <==> OriginsOf(es).out == [] && OriginsOf(es).err == []
  {
    IdleIff(es);
    OriginsExplain(es);
  }

  lemma TakeStepInOrder(es: seq<Event>, e: Event)
    requires Run(es).alive && e.Got?
    ensures NothingOvertaken(StepOrigins(Run(es), OriginsOf(es), |es|, e))
       <==> NothingOvertaken(OriginsOf(es)) && KeepsOrder(es, e)
  {
    BeganBefore(es);
    IdleOrigins(es);
    TakeInOrder(OriginsOf(es), |es|, e);
  }

  lemma EmptyStepInOrder(es: seq<Event>, e: Event)
    requires Run(es).alive && e.Empty?
    ensures NothingOvertaken(StepOrigins(Run(es), OriginsOf(es), |es|, e))
       <==> NothingOvertaken(OriginsOf(es)) && KeepsOrder(es, e)
  {
    OriginsExplain(es);
    SentIsPast(es, Run(es), OriginsOf(es));
    OutBeganIff(es);
    EmptyInOrder(Run(es), OriginsOf(es), |es|, e);
  }

  lemma TakeInOrder(o: Origins, n: nat, e: Event)
    requires e.Got?
    requires forall m :: 0 <= m < |o.sent| ==> o.sent[m] != [] && o.sent[m][0] < n
    requires (o.out != [] ==> o.out[0] < n) && (o.err != [] ==> o.err[0] < n)
    ensures NothingOvertaken(TakeOrigins(o, n, e))
       <==> NothingOvertaken(o) && (IsOrdinary(e) && e.ok ==> o.out == [] && o.err == [])
  {
    var o' := TakeOrigins(o, n, e);
    if IsOrdinary(e) && e.ok {
      SentOneMore(o, o', [n]);
    }
  }

  /** Adding one message that nothing sent has overtaken. */
  lemma SentOneMore(o: Origins, o': Origins, from: seq<nat>)
    requires from != [] && o'.sent == o.sent + [from]
    requires (o'.out == o.out || o'.out == []) && (o'.err == o.err || o'.err == [])
    ensures NothingOvertaken(o') <==>
      && NothingOvertaken(o.(out := o'.out, err := o'.err))
      && (forall m :: 0 <= m < |o.sent| ==> o.sent[m][0] < from[0])
      && (o'.out != [] ==> from[0] < o'.out[0])
      && (o'.err != [] ==> from[0] < o'.err[0])
  {
    var n := |o.sent|;
    assert o'.sent[n] == from;
    assert forall m :: 0 <= m < n ==> o'.sent[m] == o.sent[m];
  }

  lemma CloseInOrder(o: Origins, s: Stream)
    requires forall m :: 0 <= m < |o.sent| ==> o.sent[m] != []
    ensures NothingOvertaken(Close(o, s))
       <==> NothingOvertaken(o) && (s.Out? && o.out != [] && o.err != [] ==> o.out[0] < o.err[0])
                                && (s.Err? && o.out != [] && o.err != [] ==> o.err[0] < o.out[0])
  {
    if o.Pending(s) != [] {
      SentOneMore(o, Close(o, s), o.Pending(s));
    }
  }

  lemma EmptyInOrder(t: Thread, o: Origins, n: nat, e: Event)
    requires t.alive && e.Empty? && (t.out.None? <==> o.out == [])
    requires forall m :: 0 <= m < |o.sent| ==> o.sent[m] != []
    ensures NothingOvertaken(StepOrigins(t, o, n, e))
       <==> NothingOvertaken(o) && (e.outOk && o.out != [] && o.err != [] ==> o.out[0] < o.err[0])
  {
    CloseInOrder(o, Out);
    var u := if e.outOk then Close(o, Out) else o;
    CloseInOrder(u, Err);
  }

  /** At each turn of the working thread. */
  ghost predicate AlwaysKeepsOrder(es: seq<Event>) {
    forall n :: 0 <= n < |es| && Run(es[..n]).alive ==> KeepsOrder(es[..n], es[n])
  }

  lemma AlwaysNext(es: seq<Event>, e: Event)
    ensures AlwaysKeepsOrder(es + [e]) <==> AlwaysKeepsOrder(es) && (Run(es).alive ==> KeepsOrder(es, e))
  {
    var all := es + [e];
    assert all[..|es|] == es && all[|es|] == e;
    forall n | 0 <= n < |es| ensures all[..n] == es[..n] && all[n] == es[n] {
    }
  }

  lemma OrderNext(es: seq<Event>, e: Event)
    ensures NothingOvertaken(OriginsOf(es + [e]))
       <==> NothingOvertaken(OriginsOf(es)) && (Run(es).alive ==> KeepsOrder(es, e))
  {
    var all := es + [e];
    assert all[..|es|] == es && all[|es|] == e;
    if Run(es).alive {
      StepInOrder(es, e);
    }
  }

  /**
   * A run delivers everything in the order in which it began if and only if
   * at each of its turns with a working thread: an ordinary item is accepted
   * only when no chunk has been taken since the last turn without an item;
   * and standard output is sent only when what waits of it began before what
   * waits of standard error.
   */
  lemma {:induction false} OrderIff(es: seq<Event>)
    ensures NothingOvertaken(OriginsOf(es)) <==> AlwaysKeepsOrder(es)
  {
    if es != [] {
      var n := |es| - 1;
      OrderIff(es[..n]);
      OrderNext(es[..n], es[n]);
      AlwaysNext(es[..n], es[n]);
      assert es == es[..n] + [es[n]];
    }
  }

  // ---------------------------------------------------------------------
  // Runs that do not keep it
  // ---------------------------------------------------------------------

  lemma RunOfThree(a: Event, b: Event, c: Event)
    ensures Run([a, b, c]) == Step(Step(Step(START, a), b), c)
  {
    var es := [a, b, c];
    assert es[..2] == [a, b];
    assert es[..2][..1] == [a];
    assert es[..2][..1][..0] == [];
    assert Run(es[..2][..1]) == Step(START, a);
    assert Run(es[..2]) == Step(Step(START, a), b);
  }

  /** An ordinary message overtakes text that was printed before it. */
  lemma OrdinaryOvertakes(chunk: Item, item: Item)
    requires chunk.level == STDOUT && item.level >= 0
    ensures Run([Got(chunk, true), Got(item, true), Empty(true, true, false, true)]).sent
         == [Direct(item), Merged(Out, chunk.(level := INFO + 9))]
  {
    RunOfThree(Got(chunk, true), Got(item, true), Empty(true, true, false, true));
  }

  /** Text printed to standard error is overtaken by what is printed to standard output after it. */
  lemma StderrComesLast(first: Item, second: Item)
    requires first.level == STDERR && second.level == STDOUT
    ensures Run([Got(first, true), Got(second, true), Empty(true, true, false, true)]).sent
         == [Merged(Out, second.(level := INFO + 9)), Merged(Err, first.(level := ERROR + 9))]
  {
    RunOfThree(Got(first, true), Got(second, true), Empty(true, true, false, true));
  }
}
