/** The logging thread of a worker, which merges what is printed piecewise (LoggerClient.py). */
module LogMerging {
  import Lists
  import opened Strings
  import opened Wrappers

  const INFO: int := 20
  const ERROR: int := 40
  const STDERR: int := -1
  const STDOUT: int := -2

  datatype Item = Item(time: int, pid: nat, port: int, service: string, text: string, level: int)

  datatype Stream = Out | Err

  function LevelOf(s: Stream): int {
    if s.Out? then STDOUT else STDERR
  }

  function MergedLevel(s: Stream): int {
    if s.Out? then INFO + 9 else ERROR + 9
  }

  /** What was delivered to the log server: a merged message or an ordinary one. */
  datatype Sent = Merged(stream: Stream, item: Item) | Direct(item: Item)

  /** An item from the queue, or none in time; `ok` is whether sending to the server succeeds. */
  datatype Event =
    | Got(item: Item, ok: bool)
    | Empty(outOk: bool, errOk: bool, statsDue: bool, statsOk: bool)

  datatype Thread = Thread(out: Option<Item>, err: Option<Item>, alive: bool, sent: seq<Sent>, taken: seq<Item>)
  {
    function Pending(s: Stream): Option<Item> {
      if s.Out? then out else err
    }
  }

  function Append(pending: Option<Item>, item: Item): Option<Item> {
    match pending
    case None => Some(item)
    case Some(p) => Some(p.(text := p.text + item.text))
  }

  function Take(t: Thread, item: Item, ok: bool): Thread {
    var t' := t.(taken := t.taken + [item]);
    if item.level == STDOUT then t'.(out := Append(t.out, item))
    else if item.level == STDERR then t'.(err := Append(t.err, item))
    else if ok then t'.(sent := t.sent + [Direct(item)])
    else t'
  }

  /** Sending what is pending; a failure here ends the thread. */
  function Flush(t: Thread, s: Stream, ok: bool): Thread {
    if !t.alive || t.Pending(s).None? then t
    else if !ok then t.(alive := false)
    else
      var m := Merged(s, t.Pending(s).value.(level := MergedLevel(s)));
      if s.Out? then t.(sent := t.sent + [m], out := None) else t.(sent := t.sent + [m], err := None)
  }

  function Step(t: Thread, e: Event): Thread {
    if !t.alive then t
    else
      match e
      case Got(item, ok) => Take(t, item, ok)
      case Empty(outOk, errOk, statsDue, statsOk) =>
        var u := Flush(Flush(t, Out, outOk), Err, errOk);
        if u.alive && statsDue && !statsOk then u.(alive := false) else u
  }

  const START: Thread := Thread(None, None, true, [], [])

  function Run(es: seq<Event>): Thread {
    if es == [] then START else Step(Run(es[..|es| - 1]), es[|es| - 1])
  }

  /** `__log_thread`, one turn of its loop at a time. */
  class LogThread {
    var curStdout: Option<Item>
    var curStderr: Option<Item>
    var alive: bool
    ghost var sent: seq<Sent>
    ghost var taken: seq<Item>

    ghost function State(): Thread
      reads this
    {
      Thread(curStdout, curStderr, alive, sent, taken)
    }

    constructor ()
      ensures State() == START
    {
      curStdout, curStderr, alive, sent, taken := None, None, true, [], [];
    }

    /** One turn; for each stream, what has been sent and what is pending grow by exactly the chunk taken. */
    method Turn(e: Event)
      requires alive
      modifies this
      ensures State() == Step(old(State()), e)
      ensures forall s :: TextOf(State(), s) == TextOf(old(State()), s) + ChunkText(e, s)
    {
      TurnConserves(State(), e);
      match e
      case Got(item, ok) =>
        taken := taken + [item];
        if item.level == STDOUT {
          if curStdout.Some? {
            curStdout := Some(curStdout.value.(text := curStdout.value.text + item.text));
          } else {
            curStdout := Some(item);
          }
        } else if item.level == STDERR {
          if curStderr.Some? {
            curStderr := Some(curStderr.value.(text := curStderr.value.text + item.text));
          } else {
            curStderr := Some(item);
          }
        } else if ok {
          sent := sent + [Direct(item)];
        }
      case Empty(outOk, errOk, statsDue, statsOk) =>
        if curStdout.Some? {
          if !outOk {
            alive := false;
            return;
          }
          sent := sent + [Merged(Out, curStdout.value.(level := INFO + 9))];
          curStdout := None;
        }
        if curStderr.Some? {
          if !errOk {
            alive := false;
            return;
          }
          sent := sent + [Merged(Err, curStderr.value.(level := ERROR + 9))];
          curStderr := None;
        }
        if statsDue && !statsOk {
          alive := false;
        }
    }
  }

  // ---------------------------------------------------------------------
  // Nothing printed is lost, repeated or reordered
  // ---------------------------------------------------------------------

  function OfLevel(level: int): Item -> bool {
    (i: Item) => i.level == level
  }

  /** The chunks of a stream that were taken from the queue. */
  function Chunks(t: Thread, s: Stream): seq<Item> {
    Lists.Filter(t.taken, OfLevel(LevelOf(s)))
  }

  function Messages(sent: seq<Sent>, s: Stream): seq<Item> {
    if sent == [] then []
    else
      var m := sent[|sent| - 1];
      Messages(sent[..|sent| - 1], s) + if m.Merged? && m.stream == s then [m.item] else []
  }

  function Texts(items: seq<Item>): string {
    if items == [] then "" else Texts(items[..|items| - 1]) + items[|items| - 1].text
  }

  /** Some chunks as one message: everything but the text and the level is the first chunk's. */
  function Joined(chunks: seq<Item>, level: int): Item
    requires chunks != []
  {
    chunks[0].(text := Texts(chunks), level := level)
  }

  /** Runs of chunks, one for each message sent, and the run that is pending. */
  ghost predicate Accounted(t: Thread, s: Stream, groups: seq<seq<Item>>, rest: seq<Item>) {
    && Chunks(t, s) == Concat(groups) + rest
    && (forall i :: 0 <= i < |groups| ==> groups[i] != [])
    && |Messages(t.sent, s)| == |groups|
    && (forall i :: 0 <= i < |groups| ==> Messages(t.sent, s)[i] == Joined(groups[i], MergedLevel(s)))
    && t.Pending(s) == if rest == [] then None else Some(Joined(rest, LevelOf(s)))
  }

  lemma TextsPush(items: seq<Item>, item: Item)
    ensures Texts(items + [item]) == Texts(items) + item.text
  {
    assert (items + [item])[..|items|] == items;
  }

  lemma MessagesPush(sent: seq<Sent>, m: Sent, s: Stream)
    ensures Messages(sent + [m], s) == Messages(sent, s) + if m.Merged? && m.stream == s then [m.item] else []
  {
    assert (sent + [m])[..|sent|] == sent;
  }

  lemma ChunksPush(t: Thread, item: Item, s: Stream)
    ensures Chunks(t.(taken := t.taken + [item]), s)
         == Chunks(t, s) + if item.level == LevelOf(s) then [item] else []
  {
    var all := t.taken + [item];
    Lists.FilterNext(all, |t.taken|, OfLevel(LevelOf(s)));
    assert all[..|all|] == all && all[..|t.taken|] == t.taken;
  }

  lemma JoinedPush(rest: seq<Item>, item: Item, level: int)
    requires forall i :: 0 <= i < |rest| ==> rest[i].level == level
    requires item.level == level
    ensures Append(if rest == [] then None else Some(Joined(rest, level)), item) == Some(Joined(rest + [item], level))
  {
    TextsPush(rest, item);
    if rest == [] {
      assert Texts([]) + item.text == item.text;
    }
  }

  lemma RestLevels(t: Thread, s: Stream, groups: seq<seq<Item>>, rest: seq<Item>)
    requires Accounted(t, s, groups, rest)
    ensures forall i :: 0 <= i < |rest| ==> rest[i].level == LevelOf(s)
  {
    forall i | 0 <= i < |rest| ensures rest[i].level == LevelOf(s) {
      assert Chunks(t, s)[|Concat(groups)| + i] == rest[i];
      Lists.FilterHas(t.taken, OfLevel(LevelOf(s)), rest[i]);
    }
  }

  lemma TakeAccounted(t: Thread, item: Item, ok: bool, s: Stream, groups: seq<seq<Item>>, rest: seq<Item>)
      returns (rest': seq<Item>)
    requires Accounted(t, s, groups, rest)
    ensures Accounted(Take(t, item, ok), s, groups, rest')
  {
    ChunksPush(t, item, s);
    MessagesPush(t.sent, Direct(item), s);
    if item.level == LevelOf(s) {
      rest' := rest + [item];
      RestLevels(t, s, groups, rest);
      JoinedPush(rest, item, LevelOf(s));
      Assoc(Concat(groups), rest, [item]);
    } else {
      rest' := rest;
    }
  }

  /** Sending the pending run of a stream closes it. */
  lemma FlushCloses(t: Thread, s: Stream, groups: seq<seq<Item>>, rest: seq<Item>)
    requires Accounted(t, s, groups, rest) && t.alive && rest != []
    ensures Accounted(Flush(t, s, true), s, groups + [rest], [])
  {
    var m := Merged(s, t.Pending(s).value.(level := MergedLevel(s)));
    MessagesPush(t.sent, m, s);
    ConcatPush(groups, rest);
    assert Concat(groups + [rest]) + [] == Concat(groups + [rest]);
  }

  lemma FlushOther(t: Thread, f: Stream, ok: bool, s: Stream, groups: seq<seq<Item>>, rest: seq<Item>)
    requires Accounted(t, s, groups, rest) && f != s
    ensures Accounted(Flush(t, f, ok), s, groups, rest)
  {
    if t.Pending(f).Some? {
      MessagesPush(t.sent, Merged(f, t.Pending(f).value.(level := MergedLevel(f))), s);
    }
  }

  lemma FlushAccounted(t: Thread, f: Stream, ok: bool, s: Stream, groups: seq<seq<Item>>, rest: seq<Item>)
      returns (groups': seq<seq<Item>>, rest': seq<Item>)
    requires Accounted(t, s, groups, rest)
    ensures Accounted(Flush(t, f, ok), s, groups', rest')
  {
    groups', rest' := groups, rest;
    if f != s {
      FlushOther(t, f, ok, s, groups, rest);
    } else if t.alive && rest != [] && ok {
      FlushCloses(t, s, groups, rest);
      groups', rest' := groups + [rest], [];
    }
  }

  /**
   * At every point of every run, and for each stream: the chunks taken from
   * the queue, in order, are the runs of chunks behind the messages sent and
   * a run that is still pending. Each message is its run's texts joined, with
   * the first chunk's time, pid and service. This holds even after a failed
   * send has ended the thread.
   */
  lemma {:induction false} RunAccounted(es: seq<Event>, s: Stream) returns (groups: seq<seq<Item>>, rest: seq<Item>)
    ensures Accounted(Run(es), s, groups, rest)
  {
    if es == [] {
      groups, rest := [], [];
    } else {
      var t, e := Run(es[..|es| - 1]), es[|es| - 1];
      groups, rest := RunAccounted(es[..|es| - 1], s);
      if t.alive {
        match e
        case Got(item, ok) =>
          rest := TakeAccounted(t, item, ok, s, groups, rest);
        case Empty(outOk, errOk, statsDue, statsOk) =>
          groups, rest := FlushAccounted(t, Out, outOk, s, groups, rest);
          groups, rest := FlushAccounted(Flush(t, Out, outOk), Err, errOk, s, groups, rest);
      }
    }
  }

  lemma {:induction false} TextsAppend(a: seq<Item>, b: seq<Item>)
    ensures Texts(a + b) == Texts(a) + Texts(b)
  {
    if b == [] {
      assert a + b == a;
    } else {
      var init, last := b[..|b| - 1], b[|b| - 1];
      TextsAppend(a, init);
      TextsPush(a + init, last);
      assert a + b == a + init + [last];
      Assoc(Texts(a), Texts(init), last.text);
    }
  }

  lemma {:induction false} GroupTexts(groups: seq<seq<Item>>, messages: seq<Item>, level: int)
    requires |messages| == |groups|
    requires forall i :: 0 <= i < |groups| ==> groups[i] != [] && messages[i] == Joined(groups[i], level)
    ensures Texts(messages) == Texts(Concat(groups))
  {
    if groups != [] {
      var n := |groups| - 1;
      GroupTexts(groups[..n], messages[..n], level);
      ConcatPush(groups[..n], groups[n]);
      assert groups == groups[..n] + [groups[n]];
      TextsAppend(Concat(groups[..n]), groups[n]);
    }
  }

  /** The text sent for a stream and then the text that is pending. */
  function TextOf(t: Thread, s: Stream): string {
    Texts(Messages(t.sent, s)) + PendingText(t.Pending(s))
  }

  function ChunkText(e: Event, s: Stream): string {
    if e.Got? && e.item.level == LevelOf(s) then e.item.text else ""
  }

  function PendingText(p: Option<Item>): string {
    if p.Some? then p.value.text else ""
  }

  lemma AppendText(p: Option<Item>, item: Item, before: string)
    ensures before + PendingText(Append(p, item)) == before + PendingText(p) + item.text
  {
    Assoc(before, PendingText(p), item.text);
    assert "" + item.text == item.text;
  }

  lemma TakeSplits(t: Thread, item: Item, ok: bool, s: Stream)
    ensures Messages(Take(t, item, ok).sent, s) == Messages(t.sent, s)
    ensures Take(t, item, ok).Pending(s) == if item.level == LevelOf(s) then Append(t.Pending(s), item) else t.Pending(s)
  {
    MessagesPush(t.sent, Direct(item), s);
    assert Messages(t.sent, s) + [] == Messages(t.sent, s);
  }

  lemma TakeConserves(t: Thread, item: Item, ok: bool, s: Stream)
    ensures TextOf(Take(t, item, ok), s) == TextOf(t, s) + if item.level == LevelOf(s) then item.text else ""
  {
    TakeSplits(t, item, ok, s);
    if item.level == LevelOf(s) {
      AppendText(t.Pending(s), item, Texts(Messages(t.sent, s)));
    } else {
      assert TextOf(t, s) + "" == TextOf(t, s);
    }
  }

  lemma FlushConserves(t: Thread, f: Stream, ok: bool, s: Stream)
    ensures TextOf(Flush(t, f, ok), s) == TextOf(t, s)
  {
    if t.alive && t.Pending(f).Some? && ok {
      var m := t.Pending(f).value.(level := MergedLevel(f));
      MessagesPush(t.sent, Merged(f, m), s);
      var before := Messages(t.sent, s);
      if f == s {
        TextsPush(before, m);
        assert Texts(before + [m]) + "" == Texts(before) + m.text;
      } else {
        assert before + [] == before;
      }
    }
  }

  lemma TurnConserves(t: Thread, e: Event)
    requires t.alive
    ensures forall s :: TextOf(Step(t, e), s) == TextOf(t, s) + ChunkText(e, s)
  {
    forall s ensures TextOf(Step(t, e), s) == TextOf(t, s) + ChunkText(e, s) {
      match e
      case Got(item, ok) => TakeConserves(t, item, ok, s);
      case Empty(outOk, errOk, _, _) =>
        FlushConserves(t, Out, outOk, s);
        FlushConserves(Flush(t, Out, outOk), Err, errOk, s);
    }
  }

  // ---------------------------------------------------------------------
  // Ordinary messages, and the end of the thread
  // ---------------------------------------------------------------------

  /** A send fails in a turn without an item: that of a pending message, or of statistics that are due. */
  ghost predicate Fatal(t: Thread, e: Event) {
    e.Empty? && ((t.out.Some? && !e.outOk) || (t.err.Some? && !e.errOk) || (e.statsDue && !e.statsOk))
  }

  ghost predicate NoneFatal(es: seq<Event>) {
    forall n :: 0 <= n < |es| ==> !Fatal(Run(es[..n]), es[n])
  }

  lemma NoneFatalNext(es: seq<Event>, e: Event)
    ensures NoneFatal(es + [e]) <==> NoneFatal(es) && !Fatal(Run(es), e)
  {
    var all := es + [e];
    assert all[..|es|] == es && all[|es|] == e;
    forall k | 0 <= k < |es| ensures all[..k] == es[..k] && all[k] == es[k] {
    }
  }

  /** The thread goes on until a send fails in a turn without an item; then it does nothing any more. */
  lemma {:induction false} EndsIff(es: seq<Event>)
    ensures Run(es).alive <==> NoneFatal(es)
    ensures es != [] && !Run(es[..|es| - 1]).alive ==> Run(es) == Run(es[..|es| - 1])
  {
    if es != [] {
      var init, e := es[..|es| - 1], es[|es| - 1];
      EndsIff(init);
      assert es == init + [e];
      NoneFatalNext(init, e);
      StepEnds(Run(init), e);
    }
  }

  lemma StepEnds(t: Thread, e: Event)
    ensures Step(t, e).alive <==> t.alive && !Fatal(t, e)
    ensures !t.alive ==> Step(t, e) == t
  {
  }

  /** The items that went to the server by themselves. */
  function Directs(sent: seq<Sent>): seq<Item> {
    if sent == [] then []
    else Directs(sent[..|sent| - 1]) + match sent[|sent| - 1] case Direct(i) => [i] case Merged(_, _) => []
  }

  /** The item of a turn, if it is ordinary and the server accepts it from the working thread. */
  function AcceptedNow(alive: bool, e: Event): seq<Item> {
    if alive && e.Got? && e.ok && e.item.level != STDOUT && e.item.level != STDERR then [e.item] else []
  }

  function Accepted(es: seq<Event>): seq<Item> {
    if es == [] then []
    else Accepted(es[..|es| - 1]) + AcceptedNow(Run(es[..|es| - 1]).alive, es[|es| - 1])
  }

  lemma DirectsPush(sent: seq<Sent>, m: Sent)
    ensures Directs(sent + [m]) == Directs(sent) + match m case Direct(i) => [i] case Merged(_, _) => []
  {
    assert (sent + [m])[..|sent|] == sent;
  }

  lemma FlushDirects(t: Thread, s: Stream, ok: bool)
    ensures Directs(Flush(t, s, ok).sent) == Directs(t.sent)
  {
    if t.Pending(s).Some? {
      DirectsPush(t.sent, Merged(s, t.Pending(s).value.(level := MergedLevel(s))));
      assert Directs(t.sent) + [] == Directs(t.sent);
    }
  }

  /** Ordinary items are delivered as they are and in order, each one once, unless sending them fails: then they are lost. */
  lemma {:induction false} OrdinaryDelivered(es: seq<Event>)
    ensures Directs(Run(es).sent) == Accepted(es)
  {
    if es != [] {
      OrdinaryDelivered(es[..|es| - 1]);
      StepDirects(Run(es[..|es| - 1]), es[|es| - 1]);
    }
  }

  lemma StepDirects(t: Thread, e: Event)
    ensures Directs(Step(t, e).sent) == Directs(t.sent) + AcceptedNow(t.alive, e)
  {
    assert Directs(t.sent) + [] == Directs(t.sent);
    if t.alive {
      match e
      case Got(item, ok) => DirectsPush(t.sent, Direct(item));
      case Empty(outOk, errOk, _, _) =>
        FlushDirects(t, Out, outOk);
        FlushDirects(Flush(t, Out, outOk), Err, errOk);
    }
  }

  /** The texts sent for a stream, followed by the pending text, are the texts of its chunks. */
  lemma TextIsConserved(es: seq<Event>, s: Stream)
    ensures TextOf(Run(es), s) == Texts(Chunks(Run(es), s))
  {
    var t := Run(es);
    var groups, rest := RunAccounted(es, s);
    GroupTexts(groups, Messages(t.sent, s), MergedLevel(s));
    TextsAppend(Concat(groups), rest);
  }
}
