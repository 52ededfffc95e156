/**
 * The shared-memory RPC protocol (SHMClient.py, SHMServer.py) as a transition
 * system: one client object and any number of worker threads, each holding a
 * mapping of some generation of the mailbox, taking turns under one lock.
 *
 * One step is one access to what the participants share: taking or releasing
 * the lock, reading the state byte, writing the state byte or the frame,
 * unlinking the mailbox's name, creating a bigger mailbox under that name, or
 * opening whatever the name stands for.
 */
module ShmProtocol {
  import opened Bytes
  import opened Frames
  import SharedParams
  import opened Wrappers

  const INVALID: Byte := 0
  const SERVER: Byte := 83
  const CLIENT: Byte := 67

  type Box = seq<Byte>

  /** Every mailbox created so far, oldest first, and the one the name stands for. */
  datatype Memory = Memory(boxes: seq<Box>, name: Option<nat>)
  {
    predicate Has(g: nat) {
      g < |boxes| && |boxes[g]| > 0
    }

    function Flag(g: nat): Byte
      requires Has(g)
    {
      boxes[g][0]
    }

    function Len(g: nat): nat
      requires Has(g)
    {
      |boxes[g]|
    }

    /** `mmap[0] = b` */
    function SetFlag(g: nat, b: Byte): Memory
      requires Has(g)
    {
      var box: Box := boxes[g][0 := b];
      this.(boxes := boxes[g := box])
    }

    /** `mmap[1:1+len(f)] = f` */
    function Store(g: nat, f: Frame): Memory
      requires Has(g) && 1 + |f| <= Len(g)
    {
      var box: Box := boxes[g][..1] + f + boxes[g][1 + |f|..];
      this.(boxes := boxes[g := box])
    }

    /** Unlinked names are free to be created again; fresh memory is zero. */
    function Create(size: nat): Memory {
      Memory(boxes + [seq(size, i => 0)], Some(|boxes|))
    }
  }

  // ---------------------------------------------------------------------
  // Replacing the mailbox by a bigger one: the same code on both sides
  // ---------------------------------------------------------------------

  datatype Phase = Invalidate | Unlink | Create | Label | Restore

  /** Locals of `__resize_mmap`: the frame that must fit, the old length and state byte. */
  datatype Resize = Resize(phase: Phase, frame: Frame, oldLen: nat, status: Byte)

  datatype Progress =
    | More(mem: Memory, at: nat, r: Resize)
    | Done(mem: Memory, at: nat)
    | AssertionFailed

  function ResizeStep(page: nat, m: Memory, g: nat, r: Resize): Progress
    requires page > 0 && m.Has(g)
  {
    match r.phase
    case Invalidate => More(m.SetFlag(g, INVALID), g, r.(phase := Unlink))
    case Unlink => More(m.(name := None), g, r.(phase := Create))
    case Create =>
      if m.name.Some? then AssertionFailed
      else More(m.Create(SharedParams.Fit(page, 2 * |r.frame|)), |m.boxes|, r.(phase := Label))
    case Label => More(m.SetFlag(g, CLIENT), g, r.(phase := Restore))
    case Restore =>
      if m.Len(g) <= r.oldLen || r.status == INVALID then AssertionFailed
      else Done(m.SetFlag(g, r.status), g)
  }

  // ---------------------------------------------------------------------
  // Participants
  // ---------------------------------------------------------------------

  datatype ClientPc =
    | Starting                 // constructed, about to take the lock for the first time
    | Idle                     // between calls: holds the lock
    | Encoded(frame: Frame)    // about to look at the state byte and the size
    | Resizing(r: Resize)
    | Writing(frame: Frame)    // about to write the frame
    | Handing                  // about to write SERVER
    | Releasing(n: nat)        // about to unlock; n is num_times
    | Acquiring                // about to lock
    | Checking(n: nat)         // about to look at the state byte
    | Reconnecting(n: nat)     // saw INVALID
    | Decoding                 // saw CLIENT
    | Failed                   // an assertion or `raise Exception` of `_send` fired

  datatype WorkerPc =
    | Waiting                  // between commands
    | Looking(n: nat)          // holds the lock, about to look at the state byte
    | Reopening(n: nat)        // saw INVALID
    | Reading                  // saw SERVER
    | Running(req: Request)    // about to run the method
    | Fitting(frame: Frame)    // about to compare the response with the mailbox
    | Growing(r: Resize)
    | Replying(frame: Frame)   // about to write the response
    | Finishing                // about to write CLIENT
    | Leaving                  // about to unlock and return
    | Dying                    // about to unlock and end the thread
    | Broken                   // an assertion of `handle_command` fired

  datatype Worker = Worker(pc: WorkerPc, at: nat)

  datatype Who = TheClient | AWorker(id: nat)

  /** The try block of a command: a packed value, a packed error, or an error that cannot be packed. */
  datatype Outcome = Returns(value: seq<Byte>) | Raises(text: seq<Byte>) | Unspeakable

  datatype Reply = Reply(worker: nat, req: Request, resp: Response)

  /** One run of a service method, for the `call`-th call, and whether it led to a reply. */
  datatype Run = Run(call: nat, worker: nat, replied: bool)

  datatype State = State(
    page: nat,
    mem: Memory,
    holder: Option<Who>,
    client: ClientPc,
    clientMap: nat,
    workers: map<nat, Worker>,
    // what has happened so far
    sent: seq<Request>,      // requests accepted for sending
    replies: seq<Reply>,     // responses computed by workers
    runs: seq<Run>,          // service methods run by workers
    got: seq<Response>,      // responses returned (or raised) to the caller of `send`
    peak: nat)               // longest frame so far
  {
    /** Everybody's mapping is a mailbox, and so is what the name stands for. */
    ghost predicate WellFormed() {
      && page > 0
      && mem.Has(clientMap)
      && (forall w :: w in workers ==> mem.Has(workers[w].at))
      && (mem.name.Some? ==> mem.Has(mem.name.value))
    }
  }

  datatype Action =
    | Call(req: Request)                 // `send` is called
    | ClientStep
    | WorkerStep(w: nat)
    | Execute(w: nat, outcome: Outcome)  // a worker runs the method
    | Join(w: nat)                       // a worker thread opens the client's resources
    | Quit(w: nat)                       // a worker thread stops between commands

  function Max(a: nat, b: nat): nat {
    if a < b then b else a
  }

  predicate IsAscii(b: seq<Byte>) {
    forall i :: 0 <= i < |b| ==> b[i] < 128
  }

  // ---------------------------------------------------------------------
  // Steps
  // ---------------------------------------------------------------------

  /** A request that cannot be packed raises before anything shared is touched. */
  ghost function CallStep(s: State, q: Request): Option<State> {
    if !s.client.Idle? then None
    else
      match EncodeRequest(q)
      case Failure(_) => Some(s)
      case Success(f) => Some(s.(client := Encoded(f), sent := s.sent + [q], peak := Max(s.peak, |f|)))
  }

  ghost function ClientMove(s: State): Option<State>
    requires s.WellFormed()
  {
    var m, g := s.mem, s.clientMap;
    match s.client
    case Starting => if s.holder.Some? then None else Some(s.(holder := Some(TheClient), client := Idle))
    case Idle => None
    case Encoded(f) =>
      if m.Flag(g) == SERVER then Some(s.(client := Failed))
      else if |f| >= m.Len(g) - 1 then
        Some(s.(client := Resizing(Resize(Invalidate, f, m.Len(g), m.Flag(g)))))
      else Some(s.(client := Writing(f)))
    case Resizing(r) =>
      (match ResizeStep(s.page, m, g, r)
       case More(m', g', r') => Some(s.(mem := m', clientMap := g', client := Resizing(r')))
       case Done(m', g') => Some(s.(mem := m', clientMap := g', client := Writing(r.frame)))
       case AssertionFailed => Some(s.(client := Failed)))
    case Writing(f) =>
      if m.Len(g) <= |f| then Some(s.(client := Failed))
      else Some(s.(mem := m.Store(g, f), client := Handing))
    case Handing => Some(s.(mem := m.SetFlag(g, SERVER), client := Releasing(0)))
    case Releasing(n) =>
      Some(s.(holder := None, client := if n == 0 then Acquiring else Checking(n)))
    case Acquiring => if s.holder.Some? then None else Some(s.(holder := Some(TheClient), client := Checking(0)))
    case Checking(n) =>
      if m.Flag(g) == CLIENT then Some(s.(client := Decoding))
      else if m.Flag(g) == INVALID then Some(s.(client := Reconnecting(n)))
      else if m.Flag(g) == SERVER then Some(s.(client := Releasing(n)))
      else Some(s.(client := Failed))
    case Reconnecting(n) =>
      if m.name.None? || m.Len(m.name.value) <= m.Len(g) || n >= 1000 then Some(s.(client := Failed))
      else Some(s.(clientMap := m.name.value, client := Checking(n + 1)))
    case Decoding =>
      (match DecodeResponse(m.boxes[g])
       case Success(p) => Some(s.(client := Idle, got := s.got + [p]))
       case Failure(_) => Some(s.(client := Failed)))
    case Failed => None
  }

  ghost function Put(s: State, w: nat, x: Worker): State {
    s.(workers := s.workers[w := x])
  }

  ghost function WorkerMove(s: State, w: nat): Option<State>
    requires s.WellFormed() && w in s.workers
  {
    var m, x := s.mem, s.workers[w];
    var g := x.at;
    match x.pc
    case Waiting =>
      if s.holder.Some? then None
      else Some(Put(s, w, x.(pc := Looking(0))).(holder := Some(AWorker(w))))
    case Looking(n) =>
      var pc := if m.Flag(g) == CLIENT then Leaving
                else if m.Flag(g) == SERVER then Reading
                else if m.Flag(g) == INVALID then Reopening(n)
                else Dying;
      Some(Put(s, w, x.(pc := pc)))
    case Reopening(n) =>
      if m.name.None? || m.Len(m.name.value) <= m.Len(g) || n >= 1000 then Some(Put(s, w, x.(pc := Broken)))
      else Some(Put(s, w, Worker(Looking(n + 1), m.name.value)))
    case Reading =>
      (match DecodeRequest(m.boxes[g])
       case Success(q) => Some(Put(s, w, x.(pc := if IsAscii(q.cmd) then Running(q) else Dying)))
       case Failure(_) => Some(Put(s, w, x.(pc := Dying))))
    case Running(_) => None
    case Fitting(f) =>
      if |f| >= m.Len(g) - 1 then
        Some(Put(s, w, x.(pc := Growing(Resize(Invalidate, f, m.Len(g), m.Flag(g))))))
      else Some(Put(s, w, x.(pc := Replying(f))))
    case Growing(r) =>
      (match ResizeStep(s.page, m, g, r)
       case More(m', g', r') => Some(Put(s, w, Worker(Growing(r'), g')).(mem := m'))
       case Done(m', g') => Some(Put(s, w, Worker(Replying(r.frame), g')).(mem := m'))
       case AssertionFailed => Some(Put(s, w, x.(pc := Broken))))
    case Replying(f) =>
      if m.Len(g) <= |f| then Some(Put(s, w, x.(pc := Broken)))
      else Some(Put(s, w, x.(pc := Finishing)).(mem := m.Store(g, f)))
    case Finishing => Some(Put(s, w, x.(pc := Leaving)).(mem := m.SetFlag(g, CLIENT)))
    case Leaving => Some(Put(s, w, x.(pc := Waiting)).(holder := None))
    case Dying => Some(s.(workers := s.workers - {w}, holder := None))
    case Broken => None
  }

  /** What the except branch makes of a run; errors are sent behind an extra '-'. */
  function ResponseOf(o: Outcome): Option<Response> {
    match o
    case Returns(v) => Some(Response(true, v))
    case Raises(t) => Some(Response(false, [MINUS] + t))
    case Unspeakable => None
  }

  ghost function ExecuteStep(s: State, w: nat, o: Outcome): Option<State>
    requires w in s.workers
  {
    var x := s.workers[w];
    if !x.pc.Running? then None
    else
      match ResponseOf(o)
      case None =>
        Some(Put(s, w, x.(pc := Dying)).(runs := s.runs + [Run(|s.got|, w, false)]))
      case Some(p) =>
        match EncodeResponse(p)
        case Failure(_) => None
        case Success(f) =>
          Some(Put(s, w, x.(pc := Fitting(f))).(
                 runs := s.runs + [Run(|s.got|, w, true)],
                 replies := s.replies + [Reply(w, x.pc.req, p)],
                 peak := Max(s.peak, |f|)))
  }

  /** The result of an action, if it can be taken now. */
  ghost function Apply(s: State, a: Action): Option<State>
    requires s.WellFormed()
  {
    match a
    case Call(q) => CallStep(s, q)
    case ClientStep => ClientMove(s)
    case WorkerStep(w) => if w in s.workers then WorkerMove(s, w) else None
    case Execute(w, o) => if w in s.workers then ExecuteStep(s, w, o) else None
    case Join(w) =>
      if w in s.workers || s.mem.name.None? then None
      else Some(Put(s, w, Worker(Waiting, s.mem.name.value)))
    case Quit(w) =>
      if w in s.workers && s.workers[w].pc.Waiting? then Some(s.(workers := s.workers - {w})) else None
  }

  /** `create_resources`: a mailbox for 1024 bytes, labelled CLIENT; the client not yet locked in. */
  ghost function Init(page: nat): State
    requires page > 0
  {
    State(page, Memory([], None).Create(SharedParams.Fit(page, 1024)).SetFlag(0, CLIENT), None, Starting, 0, map[],
          [], [], [], [], 0)
  }

  ghost predicate Linked(s: State, a: Action, s': State) {
    s.WellFormed() && Apply(s, a) == Some(s')
  }

  /** A run: states linked by actions. */
  ghost predicate IsRun(states: seq<State>, actions: seq<Action>) {
    && |states| == |actions| + 1
    && states[0].page > 2
    && states[0] == Init(states[0].page)
    && forall i {:trigger actions[i]} :: 0 <= i < |actions| ==> Linked(states[i], actions[i], states[i + 1])
  }
}
