/**
 The rping exchange between one client and one server.  For every ping the client fills a buffer and
 advertises it; the server reads it by RDMA, answers, is told of the client's sink buffer, writes the
 text back by RDMA, and answers again.

 Each side has a main thread, a completion thread and a network card, and the six of them take their
 steps in any order.  `Step` is one such step; the theorems hold for every schedule.
 */
module Rping {
  import opened Prelude

  /** The states of a control block, as far as the connected part goes; the order is that of the enum. */
  datatype TestState =
    | Idle | ConnectRequest | AddrResolved | RouteResolved | Connected
    | ReadAdv | ReadComplete | WriteAdv | WriteComplete

  predicate AtMostConnected(s: TestState) {
    s.Idle? || s.ConnectRequest? || s.AddrResolved? || s.RouteResolved? || s.Connected?
  }

  datatype BufId = StartBuf | RdmaBuf

  /** The client advertises one of its buffers; the content of the server's answers is not looked at. */
  datatype Msg = Advert(buf: BufId, len: nat) | Answer

  datatype Work = Send(msg: Msg) | Read(buf: BufId, len: nat) | Write(buf: BufId, len: nat)

  datatype Completion = SendDone | ReadDone | WriteDone | Recv(msg: Msg)

  datatype ClientPc = Fill | SendStart | WaitWriteAdv | SendSink | WaitWriteComplete | Check | Done

  datatype ServerPc = Wait1 | PostRead | Wait2 | PostFirst | Wait3 | PostWrite | Wait4 | PostSecond

  datatype Client = Client(
    pc: ClientPc, state: TestState, ping: nat, start: nat,
    startBuf: seq<byte>, rdmaBuf: seq<byte>, checks: seq<bool>,
    sq: seq<Work>, cq: seq<Completion>, recvs: nat)

  datatype Server = Server(
    pc: ServerPc, state: TestState, sem: nat, rdmaBuf: seq<byte>, remote: BufId, remoteLen: nat,
    sq: seq<Work>, cq: seq<Completion>, recvs: nat)

  datatype World = World(c: Client, s: Server)

  /** The options of a run, and the text that snprintf makes of a ping number. */
  datatype Config = Config(size: nat, count: nat, text: nat -> seq<byte>)

  ghost predicate GoodConfig(cfg: Config) {
    cfg.size >= 1 && forall n: nat :: 0 !in cfg.text(n)
  }

  // ---------------------------------------------------------------- the ping text

  /** The letter after `c`: the fill characters run from 65 to 122 and start over. */
  function NextLetter(c: nat): nat {
    if c + 1 > 122 then 65 else c + 1
  }

  /** The letter `k` places after `c`. */
  function Letter(c: nat, k: nat): (r: byte)
    requires 65 <= c <= 122
    ensures 65 <= r <= 122
  {
    if k == 0 then c else NextLetter(Letter(c, k - 1))
  }

  /** Byte `i` of the start buffer of a ping: the text, then letters, then a zero in the last place. */
  function FilledAt(text: seq<byte>, start: nat, size: nat, i: nat): byte
    requires 65 <= start <= 122
  {
    if i + 1 == size then 0
    else if i < |text| then text[i]
    else Letter(start, i - |text|)
  }

  function Filled(text: seq<byte>, start: nat, size: nat): (r: seq<byte>)
    requires 65 <= start <= 122
    ensures |r| == size
  {
    seq(size, i requires 0 <= i < size => FilledAt(text, start, size, i))
  }

  /** The letters repeat every 58 places. */
  lemma {:induction false} LetterCycles(c: nat, k: nat)
    requires 65 <= c <= 122
    ensures Letter(c, k) == 65 + (c - 65 + k) % 58
  {
    if k > 0 {
      LetterCycles(c, k - 1);
      NextModulo(c - 65 + k - 1);
    }
  }

  lemma NextModulo(n: nat)
    ensures (n + 1) % 58 == if n % 58 == 57 then 0 else n % 58 + 1
  {}

  /**
   The buffer of a ping, byte by byte: its text as far as there is room for it ahead of the last byte, then
   the letters in a circle from the start letter on, and a zero.
   */
  ghost predicate HoldsPing(buf: seq<byte>, text: seq<byte>, start: nat, size: nat) {
    && |buf| == size
    && (forall i | 0 <= i < |text| && i < size - 1 :: buf[i] == text[i])
    && (forall i | |text| <= i < size - 1 :: buf[i] == 65 + (start - 65 + (i - |text|)) % 58)
    && (size > 0 ==> buf[size - 1] == 0)
  }

  lemma FilledHoldsPing(text: seq<byte>, start: nat, size: nat)
    requires 65 <= start <= 122
    ensures HoldsPing(Filled(text, start, size), text, start, size)
  {
    forall i | |text| <= i < size - 1
      ensures Filled(text, start, size)[i] == 65 + (start - 65 + (i - |text|)) % 58
    {
      LetterCycles(start, i - |text|);
    }
  }

  /** The only zero of the buffer is its last byte. */
  ghost predicate ZeroAtEnd(buf: seq<byte>) {
    buf != [] && forall i | 0 <= i < |buf| :: buf[i] == 0 <==> i == |buf| - 1
  }

  lemma FilledZeroAtEnd(text: seq<byte>, start: nat, size: nat)
    requires 65 <= start <= 122 && size >= 1 && 0 !in text
    ensures ZeroAtEnd(Filled(text, start, size))
  {
    forall i | 0 <= i < size
      ensures Filled(text, start, size)[i] == 0 <==> i == size - 1
    {
      if i < |text| {
        assert text[i] in text;
      }
    }
  }

  function StrLen(buf: seq<byte>): (n: nat)
    ensures n <= |buf|
  {
    if buf == [] || buf[0] == 0 then 0 else 1 + StrLen(buf[1..])
  }

  /** strlen of a buffer that starts with a text is the length of the text. */
  lemma {:induction false} StrLenOfText(buf: seq<byte>, text: seq<byte>)
    requires ZeroAtEnd(text) && text <= buf
    ensures StrLen(buf) == |text| - 1
  {
    if |text| > 1 {
      assert text[0] != 0;
      StrLenOfText(buf[1..], text[1..]);
    }
  }

  /** A transfer of the first `len` bytes. */
  function Patch(dst: seq<byte>, src: seq<byte>, len: nat): (r: seq<byte>)
    ensures |r| == |dst|
  {
    if len <= |dst| && len <= |src| then src[..len] + dst[len..] else dst
  }

  function Buffer(c: Client, buf: BufId): seq<byte> {
    if buf == StartBuf then c.startBuf else c.rdmaBuf
  }

  // ---------------------------------------------------------------- handlers

  /** client_recv() */
  function ClientRecv(state: TestState): TestState {
    if state == ReadAdv then WriteAdv else WriteComplete
  }

  /** server_recv() */
  function ServerRecv(state: TestState): TestState {
    if AtMostConnected(state) || state == WriteComplete then ReadAdv else WriteAdv
  }

  /** What a completion makes of the state of a control block. */
  function Handled(server: bool, state: TestState, wc: Completion): TestState {
    match wc
    case SendDone => state
    case WriteDone => WriteComplete
    case ReadDone => ReadComplete
    case Recv(_) => if server then ServerRecv(state) else ClientRecv(state)
  }

  // ---------------------------------------------------------------- steps

  datatype Actor = ClientMain | ClientNic | ClientCq | ServerMain | ServerNic | ServerCq

  predicate Enabled(w: World, a: Actor) {
    match a
    case ClientMain =>
      (match w.c.pc
       case WaitWriteAdv => w.c.state == WriteAdv
       case WaitWriteComplete => w.c.state == WriteComplete
       case Done => false
       case _ => true)
    case ClientNic => w.c.sq != [] && (w.c.sq[0].Send? ==> w.s.recvs > 0)
    case ClientCq => w.c.cq != []
    case ServerMain =>
      if w.s.pc.Wait1? || w.s.pc.Wait2? || w.s.pc.Wait3? || w.s.pc.Wait4? then w.s.sem > 0 else true
    case ServerNic => w.s.sq != [] && (w.s.sq[0].Send? ==> w.c.recvs > 0)
    case ServerCq => w.s.cq != []
  }

  function Step(cfg: Config, w: World, a: Actor): World
    requires Enabled(w, a)
  {
    match a
    case ClientMain => w.(c := ClientMainStep(cfg, w.c))
    case ServerMain => w.(s := ServerMainStep(w.s))
    case ClientCq => w.(c := ClientCqStep(w.c))
    case ServerCq => w.(s := ServerCqStep(w.s))
    case ClientNic => ClientNicStep(w)
    case ServerNic => ServerNicStep(w)
  }

  /** rping_test_client() */
  function ClientMainStep(cfg: Config, c: Client): Client {
    match c.pc
    case Fill =>
      c.(pc := SendStart, state := ReadAdv,
         startBuf := if 65 <= c.start <= 122 then Filled(cfg.text(c.ping), c.start, cfg.size) else [],
         start := NextLetter(c.start))
    case SendStart => c.(pc := WaitWriteAdv, sq := c.sq + [Send(Advert(StartBuf, cfg.size))])
    case WaitWriteAdv => c.(pc := SendSink)
    case SendSink => c.(pc := WaitWriteComplete, sq := c.sq + [Send(Advert(RdmaBuf, cfg.size))])
    case WaitWriteComplete => c.(pc := Check)
    case Check =>
      c.(pc := if cfg.count == 0 || c.ping + 1 < cfg.count then Fill else Done,
         ping := c.ping + 1, checks := c.checks + [c.startBuf == c.rdmaBuf])
    case Done => c
  }

  /** rping_test_server() */
  function ServerMainStep(s: Server): Server {
    match s.pc
    case Wait1 => s.(pc := PostRead, sem := Less(s.sem))
    case PostRead => s.(pc := Wait2, sq := s.sq + [Read(s.remote, s.remoteLen)])
    case Wait2 => s.(pc := PostFirst, sem := Less(s.sem))
    case PostFirst => s.(pc := Wait3, sq := s.sq + [Send(Answer)])
    case Wait3 => s.(pc := PostWrite, sem := Less(s.sem))
    case PostWrite => s.(pc := Wait4, sq := s.sq + [Write(s.remote, StrLen(s.rdmaBuf) + 1)])
    case Wait4 => s.(pc := PostSecond, sem := Less(s.sem))
    case PostSecond => s.(pc := Wait1, sq := s.sq + [Send(Answer)])
  }

  function Less(n: nat): nat {
    if n > 0 then n - 1 else 0
  }

  /** rping_cq_event_handler() of the client, one completion. */
  function ClientCqStep(c: Client): Client
    requires c.cq != []
  {
    c.(cq := c.cq[1..], state := Handled(false, c.state, c.cq[0]),
       recvs := if c.cq[0].Recv? then c.recvs + 1 else c.recvs)
  }

  /** rping_cq_event_handler() of the server, one completion; all but those of sends post the semaphore. */
  function ServerCqStep(s: Server): Server
    requires s.cq != []
  {
    var wc := s.cq[0];
    var s' := s.(cq := s.cq[1..], state := Handled(true, s.state, wc),
                 sem := if wc.SendDone? then s.sem else s.sem + 1,
                 recvs := if wc.Recv? then s.recvs + 1 else s.recvs);
    if wc.Recv? && wc.msg.Advert? then s'.(remote := wc.msg.buf, remoteLen := wc.msg.len) else s'
  }

  /** The client's card: the client posts sends only. */
  function ClientNicStep(w: World): World
    requires Enabled(w, ClientNic)
  {
    match w.c.sq[0]
    case Send(msg) =>
      World(w.c.(sq := w.c.sq[1..], cq := w.c.cq + [SendDone]),
            w.s.(cq := w.s.cq + [Recv(msg)], recvs := w.s.recvs - 1))
    case _ => w.(c := w.c.(sq := w.c.sq[1..]))
  }

  /** The server's card: sends, RDMA reads from and RDMA writes to the client's memory. */
  function ServerNicStep(w: World): World
    requires Enabled(w, ServerNic)
  {
    var rest := w.s.sq[1..];
    match w.s.sq[0]
    case Send(msg) =>
      World(w.c.(cq := w.c.cq + [Recv(msg)], recvs := w.c.recvs - 1),
            w.s.(sq := rest, cq := w.s.cq + [SendDone]))
    case Read(buf, len) =>
      w.(s := w.s.(sq := rest, cq := w.s.cq + [ReadDone],
                   rdmaBuf := Patch(w.s.rdmaBuf, Buffer(w.c, buf), len)))
    case Write(buf, len) =>
      World(if buf == StartBuf then w.c.(startBuf := Patch(w.c.startBuf, w.s.rdmaBuf, len))
            else w.c.(rdmaBuf := Patch(w.c.rdmaBuf, w.s.rdmaBuf, len)),
            w.s.(sq := rest, cq := w.s.cq + [WriteDone]))
  }

  /** A connected pair: one receive posted on each side, buffers allocated, nothing under way. */
  ghost predicate Initial(cfg: Config, w: World) {
    && w.c.pc == Fill && w.c.state == Connected && w.c.ping == 0 && 65 <= w.c.start <= 122
    && w.c.checks == [] && w.c.sq == [] && w.c.cq == [] && w.c.recvs == 1
    && |w.c.startBuf| == |w.c.rdmaBuf| == cfg.size
    && w.s.pc == Wait1 && w.s.state == Connected && w.s.sem == 0
    && w.s.sq == [] && w.s.cq == [] && w.s.recvs == 1
    && |w.s.rdmaBuf| >= cfg.size
  }

  // ---------------------------------------------------------------- the phases of one ping

  /** Where the one thing under way is. */
  datatype Phase =
    | Filling | Posting
    | StartOut | StartIn | StartSeen | Reading | ReadOut | ReadIn | ReadSeen | Answering1
    | Answer1Out | Answer1In | Answer1Seen | Posting2
    | SinkOut | SinkIn | SinkSeen | Writing | WriteOut | WriteIn | WriteSeen | Answering2
    | Answer2Out | Answer2In | Answer2Seen | Checking
    | Finished

  /** The control part of a state, without the completions of sends, which nobody waits for. */
  datatype Control = Control(
    cpc: ClientPc, cstate: TestState, csq: seq<Work>, ccq: seq<Completion>, crecvs: nat,
    spc: ServerPc, sstate: TestState, sem: nat, ssq: seq<Work>, scq: seq<Completion>, srecvs: nat)

  function Signals(cq: seq<Completion>): seq<Completion> {
    if cq == [] then []
    else if cq[0].SendDone? then Signals(cq[1..])
    else [cq[0]] + Signals(cq[1..])
  }

  function ControlOf(w: World): Control {
    Control(w.c.pc, w.c.state, w.c.sq, Signals(w.c.cq), w.c.recvs,
            w.s.pc, w.s.state, w.s.sem, w.s.sq, Signals(w.s.cq), w.s.recvs)
  }

  /** The whole control part in a phase; `rest` is the state both sides were in before the ping. */
  function Shape(p: Phase, size: nat, rest: TestState): Control {
    match p
    case Filling => Control(Fill, rest, [], [], 1, Wait1, rest, 0, [], [], 1)
    case Posting => Control(SendStart, ReadAdv, [], [], 1, Wait1, rest, 0, [], [], 1)
    case StartOut => Control(WaitWriteAdv, ReadAdv, [Send(Advert(StartBuf, size))], [], 1, Wait1, rest, 0, [], [], 1)
    case StartIn => Control(WaitWriteAdv, ReadAdv, [], [], 1, Wait1, rest, 0, [], [Recv(Advert(StartBuf, size))], 0)
    case StartSeen => Control(WaitWriteAdv, ReadAdv, [], [], 1, Wait1, ReadAdv, 1, [], [], 1)
    case Reading => Control(WaitWriteAdv, ReadAdv, [], [], 1, PostRead, ReadAdv, 0, [], [], 1)
    case ReadOut => Control(WaitWriteAdv, ReadAdv, [], [], 1, Wait2, ReadAdv, 0, [Read(StartBuf, size)], [], 1)
    case ReadIn => Control(WaitWriteAdv, ReadAdv, [], [], 1, Wait2, ReadAdv, 0, [], [ReadDone], 1)
    case ReadSeen => Control(WaitWriteAdv, ReadAdv, [], [], 1, Wait2, ReadComplete, 1, [], [], 1)
    case Answering1 => Control(WaitWriteAdv, ReadAdv, [], [], 1, PostFirst, ReadComplete, 0, [], [], 1)
    case Answer1Out => Control(WaitWriteAdv, ReadAdv, [], [], 1, Wait3, ReadComplete, 0, [Send(Answer)], [], 1)
    case Answer1In => Control(WaitWriteAdv, ReadAdv, [], [Recv(Answer)], 0, Wait3, ReadComplete, 0, [], [], 1)
    case Answer1Seen => Control(WaitWriteAdv, WriteAdv, [], [], 1, Wait3, ReadComplete, 0, [], [], 1)
    case Posting2 => Control(SendSink, WriteAdv, [], [], 1, Wait3, ReadComplete, 0, [], [], 1)
    case SinkOut =>
      Control(WaitWriteComplete, WriteAdv, [Send(Advert(RdmaBuf, size))], [], 1, Wait3, ReadComplete, 0, [], [], 1)
    case SinkIn =>
      Control(WaitWriteComplete, WriteAdv, [], [], 1, Wait3, ReadComplete, 0, [], [Recv(Advert(RdmaBuf, size))], 0)
    case SinkSeen => Control(WaitWriteComplete, WriteAdv, [], [], 1, Wait3, WriteAdv, 1, [], [], 1)
    case Writing => Control(WaitWriteComplete, WriteAdv, [], [], 1, PostWrite, WriteAdv, 0, [], [], 1)
    case WriteOut => Control(WaitWriteComplete, WriteAdv, [], [], 1, Wait4, WriteAdv, 0, [Write(RdmaBuf, size)], [], 1)
    case WriteIn => Control(WaitWriteComplete, WriteAdv, [], [], 1, Wait4, WriteAdv, 0, [], [WriteDone], 1)
    case WriteSeen => Control(WaitWriteComplete, WriteAdv, [], [], 1, Wait4, WriteComplete, 1, [], [], 1)
    case Answering2 => Control(WaitWriteComplete, WriteAdv, [], [], 1, PostSecond, WriteComplete, 0, [], [], 1)
    case Answer2Out => Control(WaitWriteComplete, WriteAdv, [], [], 1, Wait1, WriteComplete, 0, [Send(Answer)], [], 1)
    case Answer2In => Control(WaitWriteComplete, WriteAdv, [], [Recv(Answer)], 0, Wait1, WriteComplete, 0, [], [], 1)
    case Answer2Seen => Control(WaitWriteComplete, WriteComplete, [], [], 1, Wait1, WriteComplete, 0, [], [], 1)
    case Checking => Control(Check, WriteComplete, [], [], 1, Wait1, WriteComplete, 0, [], [], 1)
    case Finished => Control(Done, WriteComplete, [], [], 1, Wait1, WriteComplete, 0, [], [], 1)
  }

  /** The number of phases passed within the ping. */
  function Rank(p: Phase): nat {
    match p
    case Filling => 0 case Posting => 1 case StartOut => 2 case StartIn => 3 case StartSeen => 4
    case Reading => 5 case ReadOut => 6 case ReadIn => 7 case ReadSeen => 8 case Answering1 => 9
    case Answer1Out => 10 case Answer1In => 11 case Answer1Seen => 12 case Posting2 => 13
    case SinkOut => 14 case SinkIn => 15 case SinkSeen => 16 case Writing => 17 case WriteOut => 18
    case WriteIn => 19 case WriteSeen => 20 case Answering2 => 21 case Answer2Out => 22
    case Answer2In => 23 case Answer2Seen => 24 case Checking => 25 case Finished => 26
  }

  /** What the buffers hold in a phase. */
  ghost predicate BuffersOk(cfg: Config, w: World, p: Phase) {
    && |w.c.startBuf| == |w.c.rdmaBuf| == cfg.size <= |w.s.rdmaBuf|
    && (1 <= Rank(p) <= 25 ==> ZeroAtEnd(w.c.startBuf))
    && (4 <= Rank(p) <= 5 ==> w.s.remote == StartBuf && w.s.remoteLen == cfg.size)
    && (16 <= Rank(p) <= 17 ==> w.s.remote == RdmaBuf && w.s.remoteLen == cfg.size)
    && (7 <= Rank(p) <= 25 ==> w.c.startBuf <= w.s.rdmaBuf)
    && (19 <= Rank(p) <= 25 ==> w.c.rdmaBuf == w.c.startBuf)
  }

  /** Every finished ping came back as it was sent, and the loop has not run too long. */
  ghost predicate PingsOk(cfg: Config, w: World, p: Phase) {
    && 65 <= w.c.start <= 122
    && |w.c.checks| == w.c.ping
    && (forall i | 0 <= i < |w.c.checks| :: w.c.checks[i])
    && (cfg.count == 0 || if p.Finished? then w.c.ping == cfg.count else w.c.ping < cfg.count)
    && (p.Finished? ==> cfg.count > 0)
  }

  /** The state both sides are in before a ping. */
  function Resting(w: World): TestState {
    if w.c.ping == 0 then Connected else WriteComplete
  }

  predicate ControlOk(cfg: Config, w: World, p: Phase) {
    ControlOf(w) == Shape(p, cfg.size, Resting(w))
  }

  ghost predicate InPhase(cfg: Config, w: World, p: Phase) {
    ControlOk(cfg, w, p) && BuffersOk(cfg, w, p) && PingsOk(cfg, w, p)
  }

  // ---------------------------------------------------------------- lockstep

  function Next(cfg: Config, w: World, p: Phase): Phase {
    match p
    case Filling => Posting case Posting => StartOut case StartOut => StartIn case StartIn => StartSeen
    case StartSeen => Reading case Reading => ReadOut case ReadOut => ReadIn case ReadIn => ReadSeen
    case ReadSeen => Answering1 case Answering1 => Answer1Out case Answer1Out => Answer1In
    case Answer1In => Answer1Seen case Answer1Seen => Posting2 case Posting2 => SinkOut
    case SinkOut => SinkIn case SinkIn => SinkSeen case SinkSeen => Writing case Writing => WriteOut
    case WriteOut => WriteIn case WriteIn => WriteSeen case WriteSeen => Answering2
    case Answering2 => Answer2Out case Answer2Out => Answer2In case Answer2In => Answer2Seen
    case Answer2Seen => Checking
    case Checking => if cfg.count == 0 || w.c.ping + 1 < cfg.count then Filling else Finished
    case Finished => Finished
  }

  lemma {:induction false} SignalsAppend(cq: seq<Completion>, x: Completion)
    ensures Signals(cq + [x]) == Signals(cq) + if x.SendDone? then [] else [x]
  {
    if cq == [] {
      assert [x][1..] == [];
    } else {
      assert (cq + [x])[1..] == cq[1..] + [x];
      SignalsAppend(cq[1..], x);
    }
  }

  lemma SignalsHead(cq: seq<Completion>)
    requires cq != []
    ensures if cq[0].SendDone? then Signals(cq[1..]) == Signals(cq)
            else Signals(cq) != [] && cq[0] == Signals(cq)[0] && Signals(cq[1..]) == Signals(cq)[1..]
  {}

  // Which phases an actor moves in.

  lemma ClientMainPhases(cfg: Config, w: World, p: Phase)
    requires ControlOk(cfg, w, p) && Enabled(w, ClientMain)
    ensures p.Filling? || p.Posting? || p.Answer1Seen? || p.Posting2? || p.Answer2Seen? || p.Checking?
  {}

  lemma ServerMainPhases(cfg: Config, w: World, p: Phase)
    requires ControlOk(cfg, w, p) && Enabled(w, ServerMain)
    ensures p.StartSeen? || p.Reading? || p.ReadSeen? || p.Answering1?
         || p.SinkSeen? || p.Writing? || p.WriteSeen? || p.Answering2?
  {}

  lemma NicPhases(cfg: Config, w: World, p: Phase)
    requires ControlOk(cfg, w, p)
    ensures Enabled(w, ClientNic) ==> p.StartOut? || p.SinkOut?
    ensures Enabled(w, ServerNic) ==> p.ReadOut? || p.Answer1Out? || p.WriteOut? || p.Answer2Out?
  {}

  lemma CqPhases(cfg: Config, w: World, p: Phase)
    requires ControlOk(cfg, w, p)
    ensures w.c.cq != [] && !w.c.cq[0].SendDone? ==> p.Answer1In? || p.Answer2In?
    ensures w.s.cq != [] && !w.s.cq[0].SendDone? ==> p.StartIn? || p.ReadIn? || p.SinkIn? || p.WriteIn?
  {
    if w.c.cq != [] {
      SignalsHead(w.c.cq);
    }
    if w.s.cq != [] {
      SignalsHead(w.s.cq);
    }
  }

  // What it does there to the control part, and to the buffers.

  lemma ClientMainControl(cfg: Config, w: World, p: Phase)
    requires ControlOk(cfg, w, p) && Enabled(w, ClientMain)
    ensures ControlOk(cfg, Step(cfg, w, ClientMain), Next(cfg, w, p))
  {
    ClientMainPhases(cfg, w, p);
  }

  lemma ClientMainPings(cfg: Config, w: World, p: Phase)
    requires InPhase(cfg, w, p) && Enabled(w, ClientMain)
    ensures PingsOk(cfg, Step(cfg, w, ClientMain), Next(cfg, w, p))
  {
    ClientMainPhases(cfg, w, p);
  }

  lemma ClientMainBuffers(cfg: Config, w: World, p: Phase)
    requires GoodConfig(cfg) && InPhase(cfg, w, p) && Enabled(w, ClientMain)
    ensures BuffersOk(cfg, Step(cfg, w, ClientMain), Next(cfg, w, p))
    ensures PingsOk(cfg, Step(cfg, w, ClientMain), Next(cfg, w, p))
  {
    ClientMainPhases(cfg, w, p);
    ClientMainPings(cfg, w, p);
    if p.Filling? {
      FilledZeroAtEnd(cfg.text(w.c.ping), w.c.start, cfg.size);
    }
  }

  /** The server's write of strlen + 1 bytes covers the whole buffer. */
  lemma WritesWholeText(cfg: Config, w: World, p: Phase)
    requires BuffersOk(cfg, w, p)
    ensures p.Writing? ==> StrLen(w.s.rdmaBuf) + 1 == cfg.size
  {
    if p.Writing? {
      StrLenOfText(w.s.rdmaBuf, w.c.startBuf);
    }
  }

  lemma ServerMainControl(cfg: Config, w: World, p: Phase)
    requires ControlOk(cfg, w, p) && Enabled(w, ServerMain)
    requires p.Reading? ==> w.s.remote == StartBuf && w.s.remoteLen == cfg.size
    requires p.Writing? ==> w.s.remote == RdmaBuf && StrLen(w.s.rdmaBuf) + 1 == cfg.size
    ensures ControlOk(cfg, Step(cfg, w, ServerMain), Next(cfg, w, p))
  {
    ServerMainPhases(cfg, w, p);
  }

  lemma ServerMainBuffers(cfg: Config, w: World, p: Phase)
    requires InPhase(cfg, w, p) && Enabled(w, ServerMain)
    ensures BuffersOk(cfg, Step(cfg, w, ServerMain), Next(cfg, w, p))
    ensures PingsOk(cfg, Step(cfg, w, ServerMain), Next(cfg, w, p))
  {
    ServerMainPhases(cfg, w, p);
  }

  lemma ClientNicAdvances(cfg: Config, w: World, p: Phase)
    requires InPhase(cfg, w, p) && Enabled(w, ClientNic)
    ensures InPhase(cfg, Step(cfg, w, ClientNic), Next(cfg, w, p))
  {
    NicPhases(cfg, w, p);
    SignalsAppend(w.c.cq, SendDone);
    SignalsAppend(w.s.cq, Recv(Advert(StartBuf, cfg.size)));
    SignalsAppend(w.s.cq, Recv(Advert(RdmaBuf, cfg.size)));
  }

  /** What a send by the server's card does to the control part. */
  lemma SendControl(cfg: Config, w: World)
    requires Enabled(w, ServerNic) && w.s.sq[0].Send?
    ensures ControlOf(Step(cfg, w, ServerNic))
         == ControlOf(w).(ssq := w.s.sq[1..], ccq := Signals(w.c.cq) + [Recv(w.s.sq[0].msg)], crecvs := w.c.recvs - 1)
  {
    SignalsAppend(w.s.cq, SendDone);
    SignalsAppend(w.c.cq, Recv(w.s.sq[0].msg));
  }

  lemma ServerSends(cfg: Config, w: World, p: Phase)
    requires ControlOk(cfg, w, p) && Enabled(w, ServerNic) && (p.Answer1Out? || p.Answer2Out?)
    ensures ControlOk(cfg, Step(cfg, w, ServerNic), Next(cfg, w, p))
  {
    assert w.s.sq == [Send(Answer)];
    SendControl(cfg, w);
    StepKeepsPing(cfg, w, ServerNic);
  }

  lemma ServerReads(cfg: Config, w: World, p: Phase)
    requires ControlOk(cfg, w, p) && Enabled(w, ServerNic) && p.ReadOut?
    ensures ControlOk(cfg, Step(cfg, w, ServerNic), Next(cfg, w, p))
  {
    SignalsAppend(w.s.cq, ReadDone);
  }

  lemma ServerWrites(cfg: Config, w: World, p: Phase)
    requires ControlOk(cfg, w, p) && Enabled(w, ServerNic) && p.WriteOut?
    ensures ControlOk(cfg, Step(cfg, w, ServerNic), Next(cfg, w, p))
  {
    SignalsAppend(w.s.cq, WriteDone);
  }

  lemma ServerNicControl(cfg: Config, w: World, p: Phase)
    requires ControlOk(cfg, w, p) && Enabled(w, ServerNic)
    ensures ControlOk(cfg, Step(cfg, w, ServerNic), Next(cfg, w, p))
  {
    NicPhases(cfg, w, p);
    if p.ReadOut? {
      ServerReads(cfg, w, p);
    } else if p.WriteOut? {
      ServerWrites(cfg, w, p);
    } else {
      ServerSends(cfg, w, p);
    }
  }

  /** An answer touches no buffer, an RDMA read and an RDMA write one. */
  lemma ServerNicTouches(cfg: Config, w: World, p: Phase)
    requires ControlOk(cfg, w, p) && Enabled(w, ServerNic)
    ensures var w' := Step(cfg, w, ServerNic);
            && w'.c.startBuf == w.c.startBuf && w'.c.ping == w.c.ping && w'.c.checks == w.c.checks
            && w'.c.start == w.c.start && w'.s.remote == w.s.remote && w'.s.remoteLen == w.s.remoteLen
            && w'.s.rdmaBuf == (if p.ReadOut? then Patch(w.s.rdmaBuf, w.c.startBuf, cfg.size) else w.s.rdmaBuf)
            && w'.c.rdmaBuf == (if p.WriteOut? then Patch(w.c.rdmaBuf, w.s.rdmaBuf, cfg.size) else w.c.rdmaBuf)
  {
    NicPhases(cfg, w, p);
  }

  lemma ServerNicPings(cfg: Config, w: World, p: Phase)
    requires ControlOk(cfg, w, p) && PingsOk(cfg, w, p) && Enabled(w, ServerNic)
    ensures PingsOk(cfg, Step(cfg, w, ServerNic), Next(cfg, w, p))
  {
    NicPhases(cfg, w, p);
    ServerNicTouches(cfg, w, p);
  }

  /** The RDMA read brings the whole text to the server, the RDMA write brings it back. */
  lemma TransferBuffers(cfg: Config, w: World, w': World, p: Phase)
    requires BuffersOk(cfg, w, p) && (p.ReadOut? || p.Answer1Out? || p.WriteOut? || p.Answer2Out?)
    requires w'.c.startBuf == w.c.startBuf && w'.s.remote == w.s.remote && w'.s.remoteLen == w.s.remoteLen
    requires w'.s.rdmaBuf == if p.ReadOut? then Patch(w.s.rdmaBuf, w.c.startBuf, cfg.size) else w.s.rdmaBuf
    requires w'.c.rdmaBuf == if p.WriteOut? then Patch(w.c.rdmaBuf, w.s.rdmaBuf, cfg.size) else w.c.rdmaBuf
    ensures BuffersOk(cfg, w', Next(cfg, w, p))
  {}

  lemma ServerNicBuffers(cfg: Config, w: World, p: Phase)
    requires InPhase(cfg, w, p) && Enabled(w, ServerNic)
    ensures BuffersOk(cfg, Step(cfg, w, ServerNic), Next(cfg, w, p))
    ensures PingsOk(cfg, Step(cfg, w, ServerNic), Next(cfg, w, p))
  {
    NicPhases(cfg, w, p);
    ServerNicTouches(cfg, w, p);
    ServerNicPings(cfg, w, p);
    TransferBuffers(cfg, w, Step(cfg, w, ServerNic), p);
  }

  lemma ClientCqAdvances(cfg: Config, w: World, p: Phase)
    requires InPhase(cfg, w, p) && Enabled(w, ClientCq) && !w.c.cq[0].SendDone?
    ensures InPhase(cfg, Step(cfg, w, ClientCq), Next(cfg, w, p))
  {
    CqPhases(cfg, w, p);
    SignalsHead(w.c.cq);
  }

  lemma ServerCqControl(cfg: Config, w: World, p: Phase)
    requires ControlOk(cfg, w, p) && Enabled(w, ServerCq) && !w.s.cq[0].SendDone?
    ensures ControlOk(cfg, Step(cfg, w, ServerCq), Next(cfg, w, p))
  {
    CqPhases(cfg, w, p);
    SignalsHead(w.s.cq);
  }

  /** A completion changes no buffer; that of a receive tells the server what is advertised. */
  lemma ServerCqTouches(cfg: Config, w: World, p: Phase)
    requires ControlOk(cfg, w, p) && Enabled(w, ServerCq) && !w.s.cq[0].SendDone?
    ensures Step(cfg, w, ServerCq).c == w.c && Step(cfg, w, ServerCq).s.rdmaBuf == w.s.rdmaBuf
    ensures p.StartIn? ==> w.s.cq[0] == Recv(Advert(StartBuf, cfg.size))
    ensures p.SinkIn? ==> w.s.cq[0] == Recv(Advert(RdmaBuf, cfg.size))
  {
    CqPhases(cfg, w, p);
    SignalsHead(w.s.cq);
  }

  lemma ServerCqAdvances(cfg: Config, w: World, p: Phase)
    requires InPhase(cfg, w, p) && Enabled(w, ServerCq) && !w.s.cq[0].SendDone?
    ensures InPhase(cfg, Step(cfg, w, ServerCq), Next(cfg, w, p))
  {
    ServerCqControl(cfg, w, p);
    ServerCqTouches(cfg, w, p);
    CqPhases(cfg, w, p);
  }

  /** The step takes a completion that nobody waits for. */
  predicate Idles(w: World, a: Actor) {
    || (a == ClientCq && w.c.cq != [] && w.c.cq[0].SendDone?)
    || (a == ServerCq && w.s.cq != [] && w.s.cq[0].SendDone?)
  }

  lemma ClientIdles(cfg: Config, w: World, p: Phase)
    requires InPhase(cfg, w, p) && w.c.cq != [] && w.c.cq[0].SendDone?
    ensures InPhase(cfg, Step(cfg, w, ClientCq), p)
  {
    SignalsHead(w.c.cq);
  }

  lemma ServerIdles(cfg: Config, w: World, p: Phase)
    requires InPhase(cfg, w, p) && w.s.cq != [] && w.s.cq[0].SendDone?
    ensures InPhase(cfg, Step(cfg, w, ServerCq), p)
  {
    SignalsHead(w.s.cq);
  }

  lemma IdlesStays(cfg: Config, w: World, p: Phase, a: Actor)
    requires InPhase(cfg, w, p) && Enabled(w, a) && Idles(w, a)
    ensures InPhase(cfg, Step(cfg, w, a), p)
  {
    if a == ClientCq {
      ClientIdles(cfg, w, p);
    } else {
      ServerIdles(cfg, w, p);
    }
  }

  /** Whoever moves, the pair stays in its phase or goes on to the next. */
  lemma StepAdvances(cfg: Config, w: World, p: Phase, a: Actor)
    requires GoodConfig(cfg) && InPhase(cfg, w, p) && Enabled(w, a)
    ensures InPhase(cfg, Step(cfg, w, a), if Idles(w, a) then p else Next(cfg, w, p))
  {
    if Idles(w, a) {
      IdlesStays(cfg, w, p, a);
    } else {
      match a
      case ClientMain => ClientMainControl(cfg, w, p); ClientMainBuffers(cfg, w, p);
      case ServerMain => WritesWholeText(cfg, w, p); ServerMainControl(cfg, w, p); ServerMainBuffers(cfg, w, p);
      case ClientNic => ClientNicAdvances(cfg, w, p);
      case ServerNic => ServerNicControl(cfg, w, p); ServerNicBuffers(cfg, w, p);
      case ClientCq => ClientCqAdvances(cfg, w, p);
      case ServerCq => ServerCqAdvances(cfg, w, p);
    }
  }

  // ---------------------------------------------------------------- runs

  ghost predicate CanRun(cfg: Config, w: World, schedule: seq<Actor>)
    decreases schedule
  {
    schedule == [] || (Enabled(w, schedule[0]) && CanRun(cfg, Step(cfg, w, schedule[0]), schedule[1..]))
  }

  ghost function Run(cfg: Config, w: World, schedule: seq<Actor>): World
    requires CanRun(cfg, w, schedule)
    decreases schedule
  {
    if schedule == [] then w else Run(cfg, Step(cfg, w, schedule[0]), schedule[1..])
  }

  /** The send completions in a queue. */
  function Dones(cq: seq<Completion>): nat {
    if cq == [] then 0 else (if cq[0].SendDone? then 1 else 0) + Dones(cq[1..])
  }

  lemma {:induction false} DonesAppend(cq: seq<Completion>, x: Completion)
    ensures Dones(cq + [x]) == Dones(cq) + if x.SendDone? then 1 else 0
  {
    if cq == [] {
      assert [x][1..] == [];
    } else {
      assert (cq + [x])[1..] == cq[1..] + [x];
      DonesAppend(cq[1..], x);
    }
  }

  /** The phases still to pass before all pings are done. */
  function Remaining(cfg: Config, w: World, p: Phase): int {
    if p.Finished? then 0 else 26 * (cfg.count - w.c.ping) - Rank(p)
  }

  /** Twice the phases left, since each may leave one send completion to be taken, and those to take. */
  function Effort(cfg: Config, w: World, p: Phase): int {
    2 * Remaining(cfg, w, p) + Dones(w.c.cq) + Dones(w.s.cq)
  }

  lemma StepLeavesDones(cfg: Config, w: World, a: Actor)
    requires Enabled(w, a)
    ensures var w' := Step(cfg, w, a);
            Dones(w'.c.cq) + Dones(w'.s.cq) <= Dones(w.c.cq) + Dones(w.s.cq) + if Idles(w, a) then -1 else 1
  {
    match a
    case ClientNic =>
      DonesAppend(w.c.cq, SendDone);
      if w.c.sq[0].Send? {
        DonesAppend(w.s.cq, Recv(w.c.sq[0].msg));
      }
    case ServerNic =>
      DonesAppend(w.s.cq, SendDone);
      DonesAppend(w.s.cq, ReadDone);
      DonesAppend(w.s.cq, WriteDone);
      if w.s.sq[0].Send? {
        DonesAppend(w.c.cq, Recv(w.s.sq[0].msg));
      }
    case _ =>
  }

  lemma StepKeepsPing(cfg: Config, w: World, a: Actor)
    requires Enabled(w, a)
    ensures Step(cfg, w, a).c.ping == if a == ClientMain && w.c.pc == Check then w.c.ping + 1 else w.c.ping
  {}

  lemma NextRank(cfg: Config, w: World, p: Phase)
    requires !p.Finished? && !p.Checking?
    ensures Rank(Next(cfg, w, p)) == Rank(p) + 1 <= 25
  {}

  lemma RankLast(p: Phase)
    ensures Rank(p) <= 26 && (Rank(p) == 26 <==> p.Finished?) && (Rank(p) == 25 <==> p.Checking?)
  {}

  /** A phase passed, or a ping finished, is one phase less to pass. */
  lemma NextSpends(cfg: Config, w: World, p: Phase, a: Actor)
    requires Enabled(w, a) && !p.Finished? && w.c.ping < cfg.count
    requires p.Checking? <==> a == ClientMain && w.c.pc == Check
    ensures Remaining(cfg, Step(cfg, w, a), Next(cfg, w, p)) == Remaining(cfg, w, p) - 1
  {
    StepKeepsPing(cfg, w, a);
    if !p.Checking? {
      NextRank(cfg, w, p);
      RankLast(Next(cfg, w, p));
    }
  }

  lemma ClientChecks(cfg: Config, w: World, p: Phase)
    requires ControlOk(cfg, w, p)
    ensures w.c.pc == Check <==> p.Checking?
    ensures p.Checking? ==>
              && w.c.sq == [] && w.s.sq == [] && Signals(w.c.cq) == [] && Signals(w.s.cq) == []
              && w.s.pc == Wait1 && w.s.sem == 0
  {}

  lemma FinishedRests(cfg: Config, w: World, p: Phase, a: Actor)
    requires ControlOk(cfg, w, p) && Enabled(w, a) && !Idles(w, a)
    ensures !p.Finished?
    ensures p.Checking? ==> a == ClientMain
  {
    CqPhases(cfg, w, p);
    NicPhases(cfg, w, p);
  }

  lemma IdleSpends(cfg: Config, w: World, p: Phase, a: Actor)
    requires Enabled(w, a) && Idles(w, a)
    ensures 1 + Effort(cfg, Step(cfg, w, a), p) <= Effort(cfg, w, p)
  {
    StepLeavesDones(cfg, w, a);
    StepKeepsPing(cfg, w, a);
  }

  lemma MoveSpends(cfg: Config, w: World, p: Phase, a: Actor)
    requires Enabled(w, a) && !Idles(w, a) && !p.Finished? && w.c.ping < cfg.count
    requires p.Checking? <==> a == ClientMain && w.c.pc == Check
    ensures 1 + Effort(cfg, Step(cfg, w, a), Next(cfg, w, p)) <= Effort(cfg, w, p)
  {
    StepLeavesDones(cfg, w, a);
    NextSpends(cfg, w, p, a);
  }

  /** Every step costs effort. */
  lemma StepSpends(cfg: Config, w: World, p: Phase, a: Actor)
    requires cfg.count > 0 && InPhase(cfg, w, p) && Enabled(w, a)
    ensures 1 + Effort(cfg, Step(cfg, w, a), if Idles(w, a) then p else Next(cfg, w, p)) <= Effort(cfg, w, p)
  {
    if Idles(w, a) {
      IdleSpends(cfg, w, p, a);
    } else {
      ClientChecks(cfg, w, p);
      FinishedRests(cfg, w, p, a);
      MoveSpends(cfg, w, p, a);
    }
  }

  lemma {:induction false} RunAdvances(cfg: Config, w: World, p: Phase, schedule: seq<Actor>) returns (q: Phase)
    requires GoodConfig(cfg) && InPhase(cfg, w, p) && CanRun(cfg, w, schedule)
    ensures InPhase(cfg, Run(cfg, w, schedule), q)
    ensures cfg.count > 0 ==> |schedule| + Effort(cfg, Run(cfg, w, schedule), q) <= Effort(cfg, w, p)
    decreases schedule
  {
    if schedule == [] {
      q := p;
    } else {
      var a := schedule[0];
      StepAdvances(cfg, w, p, a);
      if cfg.count > 0 {
        StepSpends(cfg, w, p, a);
      }
      q := RunAdvances(cfg, Step(cfg, w, a), if Idles(w, a) then p else Next(cfg, w, p), schedule[1..]);
    }
  }

  lemma InitialPhase(cfg: Config, w: World)
    requires GoodConfig(cfg) && Initial(cfg, w)
    ensures InPhase(cfg, w, Filling) && Effort(cfg, w, Filling) == 52 * cfg.count
  {}

  lemma EffortLeft(cfg: Config, w: World, p: Phase)
    requires cfg.count > 0 && PingsOk(cfg, w, p)
    ensures Effort(cfg, w, p) >= 0
  {
    RankLast(p);
  }

  /** Until the last ping is done, somebody can move. */
  lemma SomebodyMoves(cfg: Config, w: World, p: Phase)
    requires ControlOk(cfg, w, p) && !p.Finished?
    ensures exists a :: Enabled(w, a)
  {
    if p.Filling? || p.Posting? || p.Answer1Seen? || p.Posting2? || p.Answer2Seen? || p.Checking? {
      assert Enabled(w, ClientMain);
    } else if p.StartOut? || p.SinkOut? {
      assert Enabled(w, ClientNic);
    } else if p.StartIn? || p.ReadIn? || p.SinkIn? || p.WriteIn? {
      assert Enabled(w, ServerCq);
    } else if p.ReadOut? || p.Answer1Out? || p.WriteOut? || p.Answer2Out? {
      assert Enabled(w, ServerNic);
    } else if p.Answer1In? || p.Answer2In? {
      assert Enabled(w, ClientCq);
    } else {
      assert Enabled(w, ServerMain);
    }
  }

  /** A check is passed exactly if every byte came back, whatever the buffers hold. */
  lemma CheckIsExact(cfg: Config, c: Client)
    requires c.pc == Check && |c.startBuf| == |c.rdmaBuf|
    ensures var checks := ClientMainStep(cfg, c).checks;
            && |checks| == |c.checks| + 1 && checks[..|c.checks|] == c.checks
            && (checks[|c.checks|] <==> forall i | 0 <= i < |c.startBuf| :: c.startBuf[i] == c.rdmaBuf[i])
  {
    if forall i | 0 <= i < |c.startBuf| :: c.startBuf[i] == c.rdmaBuf[i] {
      assert c.startBuf == c.rdmaBuf;
    }
  }

  lemma EchoInPhase(cfg: Config, w: World, p: Phase)
    requires BuffersOk(cfg, w, p)
    ensures p.Checking? ==> w.c.rdmaBuf == w.c.startBuf && ZeroAtEnd(w.c.startBuf)
  {}

  /**
   Ping echo.  In every state of every run, for any size and any count, each ping that was checked had
   come back byte for byte, and while a ping is being checked the sink holds what was sent.
   */
  lemma PingEcho(cfg: Config, w: World, schedule: seq<Actor>)
    requires GoodConfig(cfg) && Initial(cfg, w) && CanRun(cfg, w, schedule)
    ensures var end := Run(cfg, w, schedule).c;
            && |end.checks| == end.ping
            && (forall i | 0 <= i < |end.checks| :: end.checks[i])
            && (end.pc == Check ==> end.rdmaBuf == end.startBuf && ZeroAtEnd(end.startBuf))
  {
    InitialPhase(cfg, w);
    var q := RunAdvances(cfg, w, Filling, schedule);
    EchoInPhase(cfg, Run(cfg, w, schedule), q);
    ClientChecks(cfg, Run(cfg, w, schedule), q);
  }

  // ---------------------------------------------------------------- what the pings carry

  /** The pings for which the buffer has been filled. */
  function PingsFilled(c: Client): nat {
    if c.pc == Fill || c.pc == Done then c.ping else c.ping + 1
  }

  /** The start letter has moved on with every ping, and the start buffer holds the ping under way. */
  ghost predicate TextOk(cfg: Config, c: Client, first: nat) {
    && 65 <= first <= 122 && c.start == Letter(first, PingsFilled(c))
    && (c.pc != Fill && c.pc != Done ==> c.startBuf == Filled(cfg.text(c.ping), Letter(first, c.ping), cfg.size))
  }

  lemma ClientMainText(cfg: Config, c: Client, first: nat)
    requires TextOk(cfg, c, first)
    ensures TextOk(cfg, ClientMainStep(cfg, c), first)
  {}

  /** Nobody but the client's main thread touches the start buffer. */
  lemma OthersKeepText(cfg: Config, w: World, p: Phase, a: Actor)
    requires ControlOk(cfg, w, p) && Enabled(w, a) && a != ClientMain
    ensures var c' := Step(cfg, w, a).c;
            c'.pc == w.c.pc && c'.ping == w.c.ping && c'.start == w.c.start && c'.startBuf == w.c.startBuf
  {
    if a == ServerNic {
      ServerNicTouches(cfg, w, p);
    }
  }

  lemma StepKeepsText(cfg: Config, w: World, p: Phase, a: Actor, first: nat)
    requires ControlOk(cfg, w, p) && Enabled(w, a) && TextOk(cfg, w.c, first)
    ensures TextOk(cfg, Step(cfg, w, a).c, first)
  {
    if a == ClientMain {
      ClientMainText(cfg, w.c, first);
    } else {
      OthersKeepText(cfg, w, p, a);
    }
  }

  lemma {:induction false} RunKeepsText(cfg: Config, w: World, p: Phase, schedule: seq<Actor>, first: nat)
    requires GoodConfig(cfg) && InPhase(cfg, w, p) && CanRun(cfg, w, schedule) && TextOk(cfg, w.c, first)
    ensures TextOk(cfg, Run(cfg, w, schedule).c, first)
    decreases schedule
  {
    if schedule != [] {
      var a := schedule[0];
      StepAdvances(cfg, w, p, a);
      StepKeepsText(cfg, w, p, a, first);
      RunKeepsText(cfg, Step(cfg, w, a), if Idles(w, a) then p else Next(cfg, w, p), schedule[1..], first);
    }
  }

  /**
   Every ping carries its text.  In every run, while ping number n is checked, both buffers hold the text of
   number n, cut to fit, and behind it the letters in a circle, begun n places after the first start letter.
   */
  lemma PingCarriesText(cfg: Config, w: World, schedule: seq<Actor>)
    requires GoodConfig(cfg) && Initial(cfg, w) && CanRun(cfg, w, schedule)
    requires Run(cfg, w, schedule).c.pc == Check
    ensures var end := Run(cfg, w, schedule).c;
            var start := 65 + (w.c.start - 65 + end.ping) % 58;
            && HoldsPing(end.startBuf, cfg.text(end.ping), start, cfg.size)
            && HoldsPing(end.rdmaBuf, cfg.text(end.ping), start, cfg.size)
  {
    var end := Run(cfg, w, schedule).c;
    InitialPhase(cfg, w);
    RunKeepsText(cfg, w, Filling, schedule, w.c.start);
    PingEcho(cfg, w, schedule);
    LetterCycles(w.c.start, end.ping);
    FilledHoldsPing(cfg.text(end.ping), Letter(w.c.start, end.ping), cfg.size);
  }

  /** Lockstep: in every state of every run the control part is that of one phase, which the pings fix. */
  lemma Lockstep(cfg: Config, w: World, schedule: seq<Actor>)
    requires GoodConfig(cfg) && Initial(cfg, w) && CanRun(cfg, w, schedule)
    ensures exists p :: ControlOk(cfg, Run(cfg, w, schedule), p)
  {
    InitialPhase(cfg, w);
    var q := RunAdvances(cfg, w, Filling, schedule);
  }

  lemma FinishedDone(cfg: Config, w: World, p: Phase)
    requires ControlOk(cfg, w, p)
    ensures p.Finished? ==> w.c.pc == Done
  {}

  /**
   Completion.  With a positive count no run has more than 52 steps for each ping, and a run that can go
   no further has done all pings and found each of them unchanged.
   */
  lemma AllPingsComplete(cfg: Config, w: World, schedule: seq<Actor>)
    requires GoodConfig(cfg) && cfg.count > 0 && Initial(cfg, w) && CanRun(cfg, w, schedule)
    ensures |schedule| <= 52 * cfg.count
    ensures (forall a :: !Enabled(Run(cfg, w, schedule), a)) ==>
              var end := Run(cfg, w, schedule).c;
              end.pc == Done && |end.checks| == end.ping == cfg.count
              && forall i | 0 <= i < |end.checks| :: end.checks[i]
  {
    InitialPhase(cfg, w);
    var q := RunAdvances(cfg, w, Filling, schedule);
    var end := Run(cfg, w, schedule);
    EffortLeft(cfg, end, q);
    FinishedDone(cfg, end, q);
    if !q.Finished? {
      SomebodyMoves(cfg, end, q);
    }
  }

  // ---------------------------------------------------------------- the control block

  /** struct rping_cb with its queue pair, and the locals of its main thread; all updated in place. */
  class ControlBlock {
    const server: bool
    const size: nat
    const startBuf: array<byte>
    const rdmaBuf: array<byte>
    var state: TestState
    var sem: nat
    var remote: BufId
    var remoteLen: nat
    var sq: seq<Work>
    var cq: seq<Completion>
    var recvs: nat
    var clientPc: ClientPc
    var serverPc: ServerPc
    var ping: nat
    var start: nat
    var checks: seq<bool>

    function ClientView(): Client
      reads this, startBuf, rdmaBuf
    {
      Client(clientPc, state, ping, start, startBuf[..], rdmaBuf[..], checks, sq, cq, recvs)
    }

    function ServerView(): Server
      reads this, rdmaBuf
    {
      Server(serverPc, state, sem, rdmaBuf[..], remote, remoteLen, sq, cq, recvs)
    }

    /** Buffers allocated, connected, one receive posted. */
    constructor (server: bool, size: nat, start: nat)
      ensures this.server == server && this.size == size && this.start == start
      ensures startBuf.Length == rdmaBuf.Length == size && startBuf != rdmaBuf && fresh(startBuf) && fresh(rdmaBuf)
      ensures state == Connected && sem == 0 && sq == [] && cq == [] && recvs == 1
      ensures clientPc == Fill && serverPc == Wait1 && ping == 0 && checks == []
    {
      this.server, this.size, this.start := server, size, start;
      startBuf := new byte[size](i => 0);
      rdmaBuf := new byte[size](i => 0);
      state, sem, remote, remoteLen, sq, cq, recvs := Connected, 0, StartBuf, 0, [], [], 1;
      clientPc, serverPc, ping, checks := Fill, Wait1, 0, [];
    }

    /** snprintf(): at most size - 1 characters and a terminating zero; the result is the full length. */
    method Format(text: seq<byte>) returns (cc: nat)
      requires startBuf.Length == size >= 1
      modifies startBuf
      ensures cc == |text|
      ensures var n := if |text| < size then |text| else size - 1;
              forall i | 0 <= i < size ::
                startBuf[i] == if i < n then text[i] else if i == n then 0 else old(startBuf[i])
    {
      var n := if |text| < size then |text| else size - 1;
      for i := 0 to n
        invariant forall k | 0 <= k < size :: startBuf[k] == if k < i then text[k] else old(startBuf[k])
      {
        startBuf[i] := text[i];
      }
      startBuf[n] := 0;
      cc := |text|;
    }

    /** The letters after the text. */
    method FillLetters(cc: nat, start: nat)
      requires startBuf.Length == size && 65 <= start <= 122
      modifies startBuf
      ensures forall k | 0 <= k < size :: startBuf[k] == if k < cc then old(startBuf[k]) else Letter(start, k - cc)
    {
      var i, c := cc, start;
      while i < size
        invariant cc <= i && (i <= size || i == cc)
        invariant c == Letter(start, i - cc)
        invariant forall k | 0 <= k < size && (k < cc || i <= k) :: startBuf[k] == old(startBuf[k])
        invariant forall k | cc <= k < i && k < size :: startBuf[k] == Letter(start, k - cc)
      {
        startBuf[i] := c;
        c := c + 1;
        if c > 122 {
          c := 65;
        }
        i := i + 1;
      }
    }

    /** The head of the ping loop: the state, the text, the letters, the next start letter, the last zero. */
    method FillStart(text: seq<byte>)
      requires startBuf.Length == size >= 1 && 65 <= start <= 122
      modifies this`state, this`start, startBuf
      ensures state == ReadAdv && start == NextLetter(old(start))
      ensures startBuf[..] == Filled(text, old(start), size)
      ensures HoldsPing(startBuf[..], text, old(start), size)
    {
      FilledHoldsPing(text, start, size);
      state := ReadAdv;
      var cc := Format(text);
      FillLetters(cc, start);
      start := start + 1;
      if start > 122 {
        start := 65;
      }
      startBuf[size - 1] := 0;
    }

    /** rping_test_client(), one step. */
    method TestClient(cfg: Config)
      requires startBuf.Length == size == cfg.size >= 1 && startBuf != rdmaBuf && 65 <= start <= 122
      modifies this`clientPc, this`state, this`ping, this`start, this`checks, this`sq, startBuf
      ensures ClientView() == ClientMainStep(cfg, old(ClientView()))
    {
      match clientPc
      case Fill =>
        FillStart(cfg.text(ping));
        clientPc := SendStart;
      case SendStart =>
        sq := sq + [Send(Advert(StartBuf, size))];
        clientPc := WaitWriteAdv;
      case WaitWriteAdv =>
        clientPc := SendSink;
      case SendSink =>
        sq := sq + [Send(Advert(RdmaBuf, size))];
        clientPc := WaitWriteComplete;
      case WaitWriteComplete =>
        clientPc := Check;
      case Check =>
        checks := checks + [startBuf[..] == rdmaBuf[..]];
        ping := ping + 1;
        clientPc := if cfg.count == 0 || ping < cfg.count then Fill else Done;
      case Done => {}
    }

    /** sem_wait() */
    method Wait(pc: ServerPc)
      modifies this`sem, this`serverPc
      ensures sem == Less(old(sem)) && serverPc == pc
    {
      if sem > 0 {
        sem := sem - 1;
      }
      serverPc := pc;
    }

    /** ibv_post_send() of the server's main thread. */
    method PostWork(work: Work, pc: ServerPc)
      modifies this`sq, this`serverPc
      ensures sq == old(sq) + [work] && serverPc == pc
    {
      sq := sq + [work];
      serverPc := pc;
    }

    /** rping_test_server(), one step. */
    method TestServer()
      modifies this`sem, this`serverPc, this`sq
      ensures ServerView() == ServerMainStep(old(ServerView()))
    {
      match serverPc
      case Wait1 => Wait(PostRead);
      case PostRead => PostWork(Read(remote, remoteLen), Wait2);
      case Wait2 => Wait(PostFirst);
      case PostFirst => PostWork(Send(Answer), Wait3);
      case Wait3 => Wait(PostWrite);
      case PostWrite => PostWork(Write(remote, StrLen(rdmaBuf[..]) + 1), Wait4);
      case Wait4 => Wait(PostSecond);
      case PostSecond => PostWork(Send(Answer), Wait1);
    }

    /** client_recv() and server_recv() */
    method Received(msg: Msg)
      modifies this`state, this`remote, this`remoteLen
      ensures state == Handled(server, old(state), Recv(msg))
      ensures if server && msg.Advert? then remote == msg.buf && remoteLen == msg.len
              else remote == old(remote) && remoteLen == old(remoteLen)
    {
      if server {
        if msg.Advert? {
          remote, remoteLen := msg.buf, msg.len;
        }
        if AtMostConnected(state) || state == WriteComplete {
          state := ReadAdv;
        } else {
          state := WriteAdv;
        }
      } else if state == ReadAdv {
        state := WriteAdv;
      } else {
        state := WriteComplete;
      }
    }

    /** rping_cq_event_handler(), one completion: a step of the completion thread of either side. */
    method HandleEvent()
      requires cq != []
      modifies this`state, this`sem, this`remote, this`remoteLen, this`recvs, this`cq
      ensures server ==> ServerView() == ServerCqStep(old(ServerView()))
      ensures !server ==> ClientView() == ClientCqStep(old(ClientView()))
    {
      var wc := cq[0];
      cq := cq[1..];
      match wc {
        case SendDone => {}
        case WriteDone => state := WriteComplete;
        case ReadDone => state := ReadComplete;
        case Recv(msg) =>
          Received(msg);
          recvs := recvs + 1;
      }
      if server && wc != SendDone {
        sem := sem + 1;
      }
    }
  }

  /** The two sides are different objects with different buffers. */
  ghost predicate TwoSides(c: ControlBlock, s: ControlBlock) {
    && c != s && !c.server && s.server
    && c.startBuf != c.rdmaBuf && s.rdmaBuf != c.startBuf && s.rdmaBuf != c.rdmaBuf
  }

  function WorldOf(c: ControlBlock, s: ControlBlock): World
    reads c, c.startBuf, c.rdmaBuf, s, s.rdmaBuf
  {
    World(c.ClientView(), s.ServerView())
  }

  /** A transfer into registered memory. */
  method PatchBuffer(dst: array<byte>, src: seq<byte>, len: nat)
    modifies dst
    ensures dst[..] == Patch(old(dst[..]), src, len)
  {
    if len <= dst.Length && len <= |src| {
      forall i | 0 <= i < len {
        dst[i] := src[i];
      }
    }
  }

  method MoveClientNic(c: ControlBlock, s: ControlBlock)
    requires TwoSides(c, s) && Enabled(WorldOf(c, s), ClientNic)
    modifies c`sq, c`cq, s`cq, s`recvs
    ensures WorldOf(c, s) == ClientNicStep(old(WorldOf(c, s)))
  {
    var work := c.sq[0];
    c.sq := c.sq[1..];
    if work.Send? {
      c.cq := c.cq + [SendDone];
      s.cq := s.cq + [Recv(work.msg)];
      s.recvs := s.recvs - 1;
    }
  }

  method MoveServerNic(c: ControlBlock, s: ControlBlock)
    requires TwoSides(c, s) && Enabled(WorldOf(c, s), ServerNic)
    modifies c`cq, c`recvs, c.startBuf, c.rdmaBuf, s`sq, s`cq, s.rdmaBuf
    ensures WorldOf(c, s) == ServerNicStep(old(WorldOf(c, s)))
  {
    var work := s.sq[0];
    s.sq := s.sq[1..];
    match work
    case Send(msg) =>
      c.cq := c.cq + [Recv(msg)];
      c.recvs := c.recvs - 1;
      s.cq := s.cq + [SendDone];
    case Read(buf, len) =>
      PatchBuffer(s.rdmaBuf, if buf == StartBuf then c.startBuf[..] else c.rdmaBuf[..], len);
      s.cq := s.cq + [ReadDone];
    case Write(buf, len) =>
      PatchBuffer(if buf == StartBuf then c.startBuf else c.rdmaBuf, s.rdmaBuf[..], len);
      s.cq := s.cq + [WriteDone];
  }

  /** One step of either side, in place. */
  method Move(cfg: Config, c: ControlBlock, s: ControlBlock, a: Actor)
    requires TwoSides(c, s) && Enabled(WorldOf(c, s), a)
    requires c.startBuf.Length == c.size == cfg.size >= 1 && 65 <= c.start <= 122
    modifies c, s, c.startBuf, c.rdmaBuf, s.rdmaBuf
    ensures WorldOf(c, s) == Step(cfg, old(WorldOf(c, s)), a)
  {
    match a
    case ClientMain => c.TestClient(cfg);
    case ServerMain => s.TestServer();
    case ClientCq => c.HandleEvent();
    case ServerCq => s.HandleEvent();
    case ClientNic => MoveClientNic(c, s);
    case ServerNic => MoveServerNic(c, s);
  }

  /** Two control blocks in use: whatever the schedule, they end where the run of steps ends, in a phase. */
  method Execute(cfg: Config, c: ControlBlock, s: ControlBlock, schedule: seq<Actor>)
    requires GoodConfig(cfg) && TwoSides(c, s) && c.size == cfg.size
    requires Initial(cfg, WorldOf(c, s)) && CanRun(cfg, WorldOf(c, s), schedule)
    modifies c, s, c.startBuf, c.rdmaBuf, s.rdmaBuf
    ensures WorldOf(c, s) == Run(cfg, old(WorldOf(c, s)), schedule)
    ensures exists p :: InPhase(cfg, WorldOf(c, s), p)
  {
    ghost var end, p, rest := Run(cfg, WorldOf(c, s), schedule), Filling, schedule;
    var i := 0;
    while i < |schedule|
      invariant 0 <= i <= |schedule| && rest == schedule[i..]
      invariant InPhase(cfg, WorldOf(c, s), p)
      invariant CanRun(cfg, WorldOf(c, s), rest) && Run(cfg, WorldOf(c, s), rest) == end
    {
      StepAdvances(cfg, WorldOf(c, s), p, schedule[i]);
      p := if Idles(WorldOf(c, s), schedule[i]) then p else Next(cfg, WorldOf(c, s), p);
      Move(cfg, c, s, schedule[i]);
      rest := rest[1..];
      i := i + 1;
    }
  }
}
