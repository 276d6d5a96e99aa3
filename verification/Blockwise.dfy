/**
 The CoAP block-wise request handler: a stop-and-wait client that sends a payload in blocks,
 reads a response in blocks, and repeats the last frame when no reply comes.
 */
module Blockwise {
  import opened Common

  const RETRANSMIT_TIME_SEC := 3
  const MAX_RETRY := 5

  const TYPE_ACK := 2

  datatype Block = Block(num: int, more: int, size: int)

  /** A request frame. */
  datatype Frame = Frame(mid: int, code: int, accept: Option<int>, contentType: Option<int>,
                         payload: Option<Bytes>, block1: Option<Block>, block2: Block)

  /** A frame coming from the peer. */
  datatype Reply = Reply(mid: int, kind: int, codeClass: int, codeDetail: int, payload: Option<Bytes>, block2: Option<Block>)

  /** What the caller asks for. */
  datatype Config = Config(code: int, payload: Option<Bytes>, accept: Option<int>, contentType: Option<int>, size: int)

  /** The fields of one request handler. */
  datatype State = State(mid: Option<int>, payloadRx: Bytes, reqTx: Option<int>, reqTxAck: Option<int>,
                         resMore: bool, resNum: int, reqTimer: Option<int>, retry: int, lastFrame: Option<Frame>,
                         codeClass: Option<int>, codeDetail: Option<int>)

  /** A step's answer: the new timer and the frame to send now (two Nones: the request is over), or an exception. */
  datatype Answer = Answer(timer: Option<int>, frame: Option<Frame>) | Raised

  const STOP := Answer(None, None)

  const START := State(None, [], None, None, false, 0, None, 0, None, None, None)

  function Clamp(a: int, max: int): int { if a < 0 then 0 else if a < max then a else max }

  /** At most n bytes of p from position start on. */
  function Slice(p: Bytes, start: int, n: int): (r: Bytes)
    requires n >= 0
  {
    p[Clamp(start, |p|)..Clamp(Clamp(start, |p|) + n, |p|)]
  }

  /** Is there request payload that has not been sent or not been acknowledged? */
  predicate Unfinished(c: Config, s: State)
  {
    s.reqTx == None || s.reqTx != s.reqTxAck || (c.payload.Some? && s.reqTx.value != |c.payload.value|)
  }

  /** The frame with the next block of the request, or the whole request. */
  function RequestFrame(c: Config, s: State, f: Frame): (Frame, int)
    requires c.size > 0
  {
    var tx := if s.reqTx.Some? then s.reqTx.value else 0;
    if c.payload == None then (f, tx)
    else
      var p := c.payload.value;
      var g := f.(contentType := c.contentType);
      if |p| > c.size then
        var part := Slice(p, if s.reqTxAck.Some? then s.reqTxAck.value else 0, c.size);
        var tx' := tx + |part|;
        (g.(payload := Some(part), block1 := Some(Block(tx / c.size, if tx' < |p| then 1 else 0, c.size))), tx')
      else
        (g.(payload := Some(p)), |p|)
  }

  /** Past the end of the payload there is no slice, and asking for its size raises. */
  predicate NoSlice(c: Config, s: State)
  {
    c.payload.Some? && |c.payload.value| > c.size && s.reqTxAck.Some? && s.reqTxAck.value > |c.payload.value|
  }

  function Next(c: Config, s: State, now: int, rnd: int): (State, Answer)
    requires c.size > 0
  {
    if s.reqTimer.Some? then
      if now >= s.reqTimer.value then
        if s.retry < MAX_RETRY then
          var timer := Some(now + RETRANSMIT_TIME_SEC);
          (s.(reqTimer := timer, retry := s.retry + 1), Answer(timer, s.lastFrame))
        else
          (s.(reqTimer := None), STOP)
      else
        (s, Answer(s.reqTimer, None))
    else
      var f := Frame(rnd, c.code, c.accept, None, None, None, Block(0, 0, c.size));
      var timer := Some(now + RETRANSMIT_TIME_SEC);
      if Unfinished(c, s) && NoSlice(c, s) then
        (s.(mid := Some(rnd), retry := 0, reqTx := if s.reqTx.Some? then s.reqTx else Some(0)), Raised)
      else if Unfinished(c, s) then
        var (g, tx) := RequestFrame(c, s, f);
        (s.(mid := Some(rnd), retry := 0, reqTx := Some(tx), lastFrame := Some(g), reqTimer := timer), Answer(timer, Some(g)))
      else if s.resMore then
        var g := f.(block2 := Block(s.resNum + 1, 0, c.size));
        (s.(mid := Some(rnd), retry := 0, lastFrame := Some(g), reqTimer := timer), Answer(timer, Some(g)))
      else
        (s.(mid := Some(rnd), retry := 0, lastFrame := None, reqTimer := None), STOP)
  }

  /** What a reply with the awaited message ID changes. */
  function Absorb(s: State, r: Reply): State
  {
    var ack := if r.kind == TYPE_ACK && r.codeClass == 2 then s.reqTx else s.reqTxAck;
    var rx := if r.payload.Some? then s.payloadRx + r.payload.value else s.payloadRx;
    var more := r.block2.Some? && r.block2.value.more == 1;
    s.(reqTxAck := ack, mid := None, reqTimer := None, codeClass := Some(r.codeClass), codeDetail := Some(r.codeDetail),
       payloadRx := rx, resMore := more, resNum := if more then r.block2.value.num else s.resNum)
  }

  predicate Awaited(s: State, r: Reply) { s.mid == Some(r.mid) }

  predicate IsError(r: Reply) { r.codeClass == 4 || r.codeClass == 5 }

  function Receive(c: Config, s: State, r: Reply, now: int, rnd: int): (State, Answer)
    requires c.size > 0
  {
    if !Awaited(s, r) then Next(c, s, now, rnd)
    else if IsError(r) then (Absorb(s, r), STOP)
    else Next(c, Absorb(s, r), now, rnd)
  }

  // ---------- The handler object ----------

  class ReqBlockWise {
    const c: Config
    var mid: Option<int>
    var payloadRx: Bytes
    var reqTx: Option<int>
    var reqTxAck: Option<int>
    var resMore: bool
    var resNum: int
    var reqTimer: Option<int>
    var retry: int
    var lastFrame: Option<Frame>
    var codeClass: Option<int>
    var codeDetail: Option<int>

    ghost function S(): State
      reads this
    {
      State(mid, payloadRx, reqTx, reqTxAck, resMore, resNum, reqTimer, retry, lastFrame, codeClass, codeDetail)
    }

    constructor (c: Config)
      ensures this.c == c && S() == START
    {
      this.c := c;
      mid, payloadRx, reqTx, reqTxAck := None, [], None, None;
      resMore, resNum, reqTimer, retry, lastFrame := false, 0, None, 0, None;
      codeClass, codeDetail := None, None;
    }

    method ReqNotDone() returns (r: bool)
      ensures r == Unfinished(c, S())
    {
      if reqTx == None || reqTx != reqTxAck {
        return true;
      }
      if c.payload.Some? && reqTx.value != |c.payload.value| {
        return true;
      }
      return false;
    }

    method NextStep(now: int, rnd: int) returns (a: Answer)
      requires c.size > 0
      modifies this
      ensures (S(), a) == Next(c, old(S()), now, rnd)
    {
      hide Slice;
      if reqTimer.Some? {
        if now >= reqTimer.value {
          if retry < MAX_RETRY {
            reqTimer := Some(now + RETRANSMIT_TIME_SEC);
            retry := retry + 1;
            return Answer(reqTimer, lastFrame);
          }
          reqTimer := None;
          return STOP;
        }
        return Answer(reqTimer, None);
      }
      mid := Some(rnd);
      var f := Frame(rnd, c.code, c.accept, None, None, None, Block(0, 0, c.size));
      retry := 0;
      var notDone := ReqNotDone();
      if notDone {
        if reqTx == None {
          reqTx := Some(0);
        }
        if c.payload.Some? {
          var p := c.payload.value;
          f := f.(contentType := c.contentType);
          if |p| > c.size {
            var start := 0;
            if reqTxAck.Some? {
              start := reqTxAck.value;
            }
            if start > |p| {
              return Raised;
            }
            f := f.(payload := Some(Slice(p, start, c.size)));
            var num := reqTx.value / c.size;
            reqTx := Some(reqTx.value + |f.payload.value|);
            f := f.(block1 := Some(Block(num, if reqTx.value < |p| then 1 else 0, c.size)));
          } else {
            f := f.(payload := Some(p));
            reqTx := Some(|p|);
          }
        }
        lastFrame := Some(f);
        reqTimer := Some(now + RETRANSMIT_TIME_SEC);
        return Answer(reqTimer, lastFrame);
      } else if resMore {
        f := f.(block2 := Block(resNum + 1, 0, c.size));
        lastFrame := Some(f);
        reqTimer := Some(now + RETRANSMIT_TIME_SEC);
        return Answer(reqTimer, lastFrame);
      }
      lastFrame := None;
      reqTimer := None;
      return STOP;
    }

    method RxData(r: Reply, now: int, rnd: int) returns (a: Answer)
      requires c.size > 0
      modifies this
      ensures (S(), a) == Receive(c, old(S()), r, now, rnd)
    {
      hide Next;
      if mid == None || r.mid != mid.value {
        a := NextStep(now, rnd);
        return;
      }
      if r.kind == TYPE_ACK && r.codeClass == 2 {
        reqTxAck := reqTx;
      }
      mid := None;
      reqTimer := None;
      codeClass := Some(r.codeClass);
      codeDetail := Some(r.codeDetail);
      if r.payload.Some? {
        payloadRx := payloadRx + r.payload.value;
      }
      if r.block2.Some? && r.block2.value.more == 1 {
        resMore := true;
        resNum := r.block2.value.num;
      } else {
        resMore := false;
      }
      if r.codeClass == 5 || r.codeClass == 4 {
        return STOP;
      }
      a := NextStep(now, rnd);
    }
  }

  // ---------- One transfer over a bad channel ----------

  /** Time passes, or some frame arrives; rnd is the next random message ID. */
  datatype Event = Timeout(now: int, rnd: int) | Rx(reply: Reply, now: int, rnd: int)

  /** The handler, the distinct frames it has sent with the number of copies of each, and the IDs it has drawn. */
  datatype World = World(s: State, log: seq<Frame>, copies: seq<nat>, mids: set<int>, failed: bool)

  /** Note what a step has sent: a first copy extends the log, a repeat counts for its last frame. */
  function Record(w: World, s: State, a: Answer, failed: bool): World
  {
    var mids := if s.mid.Some? then w.mids + {s.mid.value} else w.mids;
    if a.Raised? then World(s, w.log, w.copies, mids, true)
    else if a.frame == None then World(s, w.log, w.copies, mids, failed)
    else if s.retry == 0 || w.copies == [] then World(s, w.log + [a.frame.value], w.copies + [1], mids, failed)
    else World(s, w.log, w.copies[|w.copies| - 1 := w.copies[|w.copies| - 1] + 1], mids, failed)
  }

  predicate GivesUp(s: State, now: int) { s.reqTimer.Some? && now >= s.reqTimer.value && s.retry >= MAX_RETRY }

  function StepWorld(c: Config, w: World, e: Event): World
    requires c.size > 0
  {
    match e
    case Timeout(now, rnd) =>
      var (s, a) := Next(c, w.s, now, rnd);
      Record(w, s, a, w.failed || GivesUp(w.s, now))
    case Rx(r, now, rnd) =>
      var (s, a) := Receive(c, w.s, r, now, rnd);
      Record(w, s, a, w.failed || if Awaited(w.s, r) then IsError(r) else GivesUp(w.s, now))
  }

  /** The request is started by one step with an empty log. */
  function Begin(c: Config, now: int, rnd: int): World
    requires c.size > 0
  {
    var (s, a) := Next(c, START, now, rnd);
    Record(World(START, [], [], {}, false), s, a, false)
  }

  function PayloadOf(r: Reply): Bytes { if r.payload.Some? then r.payload.value else [] }

  predicate Acknowledges(r: Reply) { r.kind == TYPE_ACK && r.codeClass == 2 }

  predicate MoreOf(r: Reply) { r.block2.Some? && r.block2.value.more == 1 }

  /** The server's answer to frame f: an error, a plain go-ahead to a block with more to come, or a block of body. */
  predicate ServerReply(c: Config, body: Bytes, f: Frame, r: Reply)
    requires c.size > 0
  {
    || IsError(r)
    || (Acknowledges(r) &&
        if f.block1.Some? && f.block1.value.more == 1 then PayloadOf(r) == [] && !MoreOf(r)
        else
          && PayloadOf(r) == Slice(body, f.block2.num * c.size, c.size)
          && (MoreOf(r) <==> (f.block2.num + 1) * c.size < |body|)
          && (MoreOf(r) ==> r.block2.value.num == f.block2.num))
  }

  /**
   The channel may lose, repeat and delay frames and invent others; message IDs are drawn without repetition,
   and a frame that carries a drawn ID is the server's answer to the frame sent under it.
   */
  ghost predicate Possible(c: Config, body: Bytes, w: World, e: Event)
    requires c.size > 0
  {
    && e.rnd !in w.mids
    && (e.Rx? && e.reply.mid in w.mids ==>
          exists k :: 0 <= k < |w.log| && w.log[k].mid == e.reply.mid && ServerReply(c, body, w.log[k], e.reply))
  }

  /** The world after the events. */
  function Run(c: Config, start: World, events: seq<Event>): World
    requires c.size > 0
  {
    if events == [] then start else StepWorld(c, Run(c, start, events[..|events| - 1]), events[|events| - 1])
  }

  /** Every event is possible when it happens. */
  ghost predicate PossibleRun(c: Config, body: Bytes, start: World, events: seq<Event>)
    requires c.size > 0
  {
    events == [] ||
    (PossibleRun(c, body, start, events[..|events| - 1]) &&
     Possible(c, body, Run(c, start, events[..|events| - 1]), events[|events| - 1]))
  }

  // ---------- What the frames should be ----------

  /** Number of request frames: one, or one for each block of a payload longer than a block. */
  function Blocks(c: Config): (n: nat)
    requires c.size > 0
    ensures n >= 1
  {
    if c.payload == None || |c.payload.value| <= c.size then 1
    else
      DivBounds(|c.payload.value| - 1, c.size);
      (|c.payload.value| - 1) / c.size + 1
  }

  lemma DivBounds(a: nat, b: int)
    requires b > 0
    ensures a / b >= 0 && (a / b) * b <= a < (a / b + 1) * b
  {
    assert a == (a / b) * b + a % b;
  }

  /** Bytes sent once n request frames are out. */
  function SentAfter(c: Config, n: nat): int
    requires c.size > 0
  {
    if c.payload == None then 0
    else if n >= Blocks(c) then |c.payload.value| else n * c.size
  }

  /** Frame number j of the transfer, under message ID mid. */
  function FrameAt(c: Config, j: nat, mid: int): Frame
    requires c.size > 0
  {
    var f := Frame(mid, c.code, c.accept, None, None, None, Block(0, 0, c.size));
    if j >= Blocks(c) then f.(block2 := Block(j - Blocks(c) + 1, 0, c.size))
    else if c.payload == None then f
    else if Blocks(c) == 1 then f.(contentType := c.contentType, payload := c.payload)
    else f.(contentType := c.contentType, payload := Some(Slice(c.payload.value, j * c.size, c.size)),
            block1 := Some(Block(j, if j + 1 < Blocks(c) then 1 else 0, c.size)))
  }

  ghost predicate LogOk(c: Config, w: World)
    requires c.size > 0
  {
    && (forall j :: 0 <= j < |w.log| ==> w.log[j] == FrameAt(c, j, w.log[j].mid) && w.log[j].mid in w.mids)
    && (forall i, j :: 0 <= i < j < |w.log| ==> w.log[i].mid != w.log[j].mid)
    && (w.s.mid.Some? ==> w.s.mid.value in w.mids)
  }

  /** Waiting for the reply to the last frame of the log. */
  ghost predicate Waiting(c: Config, body: Bytes, w: World)
    requires c.size > 0
  {
    var n, nb, s := |w.log|, Blocks(c), w.s;
    && n >= 1 && s.reqTimer.Some? && s.lastFrame == Some(w.log[n - 1]) && s.mid == Some(w.log[n - 1].mid)
    && s.reqTx == Some(SentAfter(c, n))
    && s.reqTxAck == (if n == 1 then None else Some(SentAfter(c, n - 1)))
    && (n <= nb ==> s.payloadRx == [])
    && (n > nb ==> (n - nb) * c.size < |body| && s.payloadRx == body[..(n - nb) * c.size])
  }

  /** The transfer is over. */
  ghost predicate Finished(c: Config, body: Bytes, w: World)
    requires c.size > 0
  {
    && |w.log| >= Blocks(c) && w.s.reqTimer == None && !Unfinished(c, w.s) && !w.s.resMore
    && w.s.payloadRx == body
    && (w.s.mid == None || forall j :: 0 <= j < |w.log| ==> w.log[j].mid != w.s.mid.value)
  }

  /** No frame goes out more than six times, and repeats are of the last frame of the log. */
  ghost predicate CopiesOk(w: World)
  {
    && |w.copies| == |w.log|
    && (forall j :: 0 <= j < |w.copies| ==> 1 <= w.copies[j] <= 1 + MAX_RETRY)
    && (w.s.reqTimer.Some? ==> w.log != [] && 0 <= w.s.retry <= MAX_RETRY && w.copies[|w.log| - 1] == w.s.retry + 1 &&
                               w.s.lastFrame == Some(w.log[|w.log| - 1]))
  }

  /** A step either repeats the last frame or makes a new one under the new ID, and only a timer awaits a reply. */
  lemma NextSends(c: Config, s: State, now: int, rnd: int)
    requires c.size > 0
    ensures var (t, a) := Next(c, s, now, rnd);
            && t.mid == (if s.reqTimer.Some? then s.mid else Some(rnd))
            && (if s.reqTimer.Some? then
                  && a.Answer? && t.lastFrame == s.lastFrame
                  && (|| (a.frame == s.lastFrame && t.retry == s.retry + 1 <= MAX_RETRY)
                      || (a.frame == None && t.retry == s.retry))
                else
                  && t.retry == 0 && (t.reqTimer.Some? ==> a.Answer? && a.frame.Some?)
                  && (a.Answer? && a.frame.Some? ==> a.frame.value.mid == rnd && t.lastFrame == a.frame))
  {
    hide Slice;
  }

  lemma CopiesNext(c: Config, w: World, s: State, now: int, rnd: int, failed: bool)
    requires c.size > 0 && CopiesOk(w)
    requires s == w.s || s.reqTimer == None
    ensures var (t, a) := Next(c, s, now, rnd); CopiesOk(Record(w, t, a, failed))
  {
    hide Next;
    NextSends(c, s, now, rnd);
  }

  lemma CopiesStep(c: Config, w: World, e: Event)
    requires c.size > 0 && CopiesOk(w)
    ensures CopiesOk(StepWorld(c, w, e))
  {
    if e.Rx? && Awaited(w.s, e.reply) && IsError(e.reply) {
      hide Next;
    } else {
      hide Next, Record, CopiesOk;
      var s := if e.Rx? && Awaited(w.s, e.reply) then Absorb(w.s, e.reply) else w.s;
      var failed := w.failed || ((e.Timeout? || !Awaited(w.s, e.reply)) && GivesUp(w.s, e.now));
      CopiesNext(c, w, s, e.now, e.rnd, failed);
    }
  }

  /** On every run at all, no frame goes out more than six times. */
  lemma {:induction false} SixCopies(c: Config, now: int, rnd: int, events: seq<Event>)
    requires c.size > 0
    ensures CopiesOk(Run(c, Begin(c, now, rnd), events))
  {
    if events != [] {
      SixCopies(c, now, rnd, events[..|events| - 1]);
      CopiesStep(c, Run(c, Begin(c, now, rnd), events[..|events| - 1]), events[|events| - 1]);
    }
  }

  /** Every ID is drawn once. */
  ghost predicate DistinctIds(w: World)
  {
    && (forall j :: 0 <= j < |w.log| ==> w.log[j].mid in w.mids)
    && (forall i, j :: 0 <= i < j < |w.log| ==> w.log[i].mid != w.log[j].mid)
    && (w.s.mid.Some? ==> w.s.mid.value in w.mids)
  }

  /** No message ID goes out more than six times when IDs are drawn without repetition. */
  lemma {:induction false} SixPerId(c: Config, body: Bytes, now: int, rnd: int, events: seq<Event>)
    requires c.size > 0 && PossibleRun(c, body, Begin(c, now, rnd), events)
    ensures var w := Run(c, Begin(c, now, rnd), events); CopiesOk(w) && DistinctIds(w)
  {
    hide Slice, Possible;
    SixCopies(c, now, rnd, events);
    if events != [] {
      SixPerId(c, body, now, rnd, events[..|events| - 1]);
      DistinctStep(c, body, Run(c, Begin(c, now, rnd), events[..|events| - 1]), events[|events| - 1]);
    }
  }

  lemma DistinctNext(c: Config, w: World, s: State, now: int, rnd: int, failed: bool)
    requires c.size > 0 && CopiesOk(w) && DistinctIds(w) && rnd !in w.mids
    requires s == w.s || s.reqTimer == None
    ensures var (t, a) := Next(c, s, now, rnd); DistinctIds(Record(w, t, a, failed))
  {
    hide Next;
    NextSends(c, s, now, rnd);
    var (t, a) := Next(c, s, now, rnd);
    if s.reqTimer.Some? {
      assert Record(w, t, a, failed).log == w.log;
      assert w.mids <= Record(w, t, a, failed).mids;
    } else if a.Answer? && a.frame.Some? {
      assert Record(w, t, a, failed).log == w.log + [a.frame.value];
      assert Record(w, t, a, failed).mids == w.mids + {rnd};
    } else {
      assert Record(w, t, a, failed).log == w.log;
    }
  }

  lemma DistinctStep(c: Config, body: Bytes, w: World, e: Event)
    requires c.size > 0 && CopiesOk(w) && DistinctIds(w) && Possible(c, body, w, e)
    ensures DistinctIds(StepWorld(c, w, e))
  {
    hide Next, Record, ServerReply;
    if e.Rx? && Awaited(w.s, e.reply) && IsError(e.reply) {
      RecordStop(w, Absorb(w.s, e.reply), true);
    } else {
      var s := if e.Rx? && Awaited(w.s, e.reply) then Absorb(w.s, e.reply) else w.s;
      var failed := w.failed || ((e.Timeout? || !Awaited(w.s, e.reply)) && GivesUp(w.s, e.now));
      DistinctNext(c, w, s, e.now, e.rnd, failed);
    }
  }

  lemma RecordStop(w: World, s: State, failed: bool)
    ensures Record(w, s, STOP, failed).log == w.log && Record(w, s, STOP, failed).s == s
    ensures s.mid == None ==> Record(w, s, STOP, failed).mids == w.mids
  {
  }

  lemma BlockBounds(c: Config)
    requires c.size > 0 && c.payload.Some? && |c.payload.value| > c.size
    ensures Blocks(c) >= 2 && (Blocks(c) - 1) * c.size < |c.payload.value| <= Blocks(c) * c.size
  {
    DivBounds(|c.payload.value| - 1, c.size);
  }

  lemma MulDiv(j: nat, b: int)
    requires b > 0
    ensures (j * b) / b == j
  {
    DivBounds(j * b, b);
    Cancel(j * b / b, j, b);
  }

  lemma Cancel(x: int, y: int, b: int)
    requires b > 0 && x * b <= y * b < (x + 1) * b
    ensures x == y
  {
    if x < y {
      MulLe(x + 1, y, b);
    }
    if y < x {
      MulLe(y + 1, x, b);
    }
  }

  lemma MulLe(x: int, y: int, b: int)
    requires b > 0 && x <= y
    ensures x * b <= y * b
  {
  }

  /** The next request frame is the next one of the transfer. */
  lemma NextRequest(c: Config, s: State, n: nat, rnd: int)
    requires c.size > 0 && n < Blocks(c)
    requires s.reqTx == (if n == 0 then None else Some(SentAfter(c, n))) && s.reqTxAck == s.reqTx
    ensures RequestFrame(c, s, Frame(rnd, c.code, c.accept, None, None, None, Block(0, 0, c.size))) ==
              (FrameAt(c, n, rnd), SentAfter(c, n + 1))
    ensures Unfinished(c, s)
  {
    if c.payload.Some? && |c.payload.value| > c.size {
      BlockBounds(c);
      MulDiv(n, c.size);
      MulLe(n, Blocks(c) - 1, c.size);
      if n + 1 < Blocks(c) {
        MulLe(n + 1, Blocks(c) - 1, c.size);
      }
      assert (n + 1) * c.size == n * c.size + c.size;
    }
  }

  /** A first copy of frame number n extends the log as expected. */
  lemma LogGrows(c: Config, w: World, s: State, f: Frame)
    requires c.size > 0 && LogOk(c, w) && CopiesOk(w) && s.retry == 0
    requires f == FrameAt(c, |w.log|, f.mid) && f.mid !in w.mids && s.mid == Some(f.mid)
    ensures var v := Record(w, s, Answer(s.reqTimer, Some(f)), w.failed);
            LogOk(c, v) && v.log == w.log + [f] && v.s == s && v.failed == w.failed
  {
    hide FrameAt;
  }

  /** The reply to a block that is not the last lets the next block go out. */
  lemma AfterBlock(c: Config, body: Bytes, w: World, r: Reply, now: int, rnd: int)
    requires c.size > 0 && LogOk(c, w) && CopiesOk(w) && Waiting(c, body, w) && rnd !in w.mids && |w.log| < Blocks(c)
    requires Awaited(w.s, r) && !IsError(r) && ServerReply(c, body, w.log[|w.log| - 1], r)
    ensures var v := StepWorld(c, w, Rx(r, now, rnd));
            LogOk(c, v) && Waiting(c, body, v) && v.failed == w.failed && |v.log| == |w.log| + 1
  {
    hide LogOk, CopiesOk, SentAfter, RequestFrame, Slice;
    var n := |w.log|;
    LastAcknowledged(c, body, w, r);
    var s := Absorb(w.s, r);
    NextRequest(c, s, n, rnd);
    NotPastEnd(c, n);
    var (s', a) := Next(c, s, now, rnd);
    LogGrows(c, w, s', a.frame.value);
  }

  /** A server's answer to a block with more to come brings no body. */
  lemma LastAcknowledged(c: Config, body: Bytes, w: World, r: Reply)
    requires c.size > 0 && LogOk(c, w) && 0 < |w.log| < Blocks(c)
    requires !IsError(r) && ServerReply(c, body, w.log[|w.log| - 1], r)
    ensures Acknowledges(r) && PayloadOf(r) == [] && !MoreOf(r)
  {
    hide Slice, SentAfter;
    var last := w.log[|w.log| - 1];
    assert last == FrameAt(c, |w.log| - 1, last.mid);
  }

  lemma NotPastEnd(c: Config, n: nat)
    requires c.size > 0 && n < Blocks(c)
    ensures c.payload.Some? ==> 0 <= SentAfter(c, n) <= |c.payload.value|
  {
    if c.payload.Some? && |c.payload.value| > c.size {
      BlockBounds(c);
      MulLe(n, Blocks(c) - 1, c.size);
    }
  }

  lemma SliceGrows(body: Bytes, k: nat, size: int)
    requires size > 0 && k * size <= |body|
    ensures body[..k * size] + Slice(body, k * size, size) == if (k + 1) * size < |body| then body[..(k + 1) * size] else body
  {
    assert (k + 1) * size == k * size + size;
  }

  /** What is received after the reply that completes frame n of the log, past the request. */
  lemma BodyGrows(c: Config, body: Bytes, w: World, r: Reply)
    requires c.size > 0 && LogOk(c, w) && Waiting(c, body, w) && |w.log| >= Blocks(c)
    requires !IsError(r) && ServerReply(c, body, w.log[|w.log| - 1], r)
    ensures var k := |w.log| - Blocks(c);
            && Absorb(w.s, r).payloadRx == (if (k + 1) * c.size < |body| then body[..(k + 1) * c.size] else body)
            && Absorb(w.s, r).resMore == ((k + 1) * c.size < |body|)
            && (Absorb(w.s, r).resMore ==> Absorb(w.s, r).resNum == k)
  {
    var n, nb := |w.log|, Blocks(c);
    var last := w.log[n - 1];
    assert last == FrameAt(c, n - 1, last.mid);
    if c.payload.Some? && |c.payload.value| > c.size {
      BlockBounds(c);
    }
    assert last.block2.num == n - nb;
    assert 0 * c.size == 0;
    SliceGrows(body, n - nb, c.size);
    assert w.s.payloadRx + PayloadOf(r) == Absorb(w.s, r).payloadRx;
  }

  /** Past the request, a reply with more to come asks for the next block of the body. */
  lemma AfterBody(c: Config, body: Bytes, w: World, r: Reply, now: int, rnd: int)
    requires c.size > 0 && LogOk(c, w) && CopiesOk(w) && Waiting(c, body, w) && rnd !in w.mids && |w.log| >= Blocks(c)
    requires Awaited(w.s, r) && !IsError(r) && ServerReply(c, body, w.log[|w.log| - 1], r) && MoreOf(r)
    ensures var v := StepWorld(c, w, Rx(r, now, rnd));
            LogOk(c, v) && Waiting(c, body, v) && v.failed == w.failed && |v.log| == |w.log| + 1
  {
    hide Slice, LogOk, CopiesOk;
    BodyGrows(c, body, w, r);
    var s := Absorb(w.s, r);
    assert s.reqTx == s.reqTxAck == Some(SentAfter(c, Blocks(c)));
    assert !Unfinished(c, s);
    var (s', a) := Next(c, s, now, rnd);
    LogGrows(c, w, s', a.frame.value);
  }

  /** The reply with the last block of the body ends the transfer. */
  lemma AfterLast(c: Config, body: Bytes, w: World, r: Reply, now: int, rnd: int)
    requires c.size > 0 && LogOk(c, w) && CopiesOk(w) && Waiting(c, body, w) && rnd !in w.mids && |w.log| >= Blocks(c)
    requires Awaited(w.s, r) && !IsError(r) && ServerReply(c, body, w.log[|w.log| - 1], r) && !MoreOf(r)
    ensures var v := StepWorld(c, w, Rx(r, now, rnd));
            LogOk(c, v) && Finished(c, body, v) && v.failed == w.failed
  {
    BodyGrows(c, body, w, r);
    hide Slice, ServerReply;
    var s := Absorb(w.s, r);
    assert s.reqTx == s.reqTxAck == Some(SentAfter(c, Blocks(c)));
    assert !Unfinished(c, s);
  }

  /** The invariant of a transfer that has neither given up nor met an error. */
  ghost predicate Inv(c: Config, body: Bytes, w: World)
    requires c.size > 0
  {
    CopiesOk(w) && (w.failed || (LogOk(c, w) && (Waiting(c, body, w) || Finished(c, body, w))))
  }

  /** Without an awaited reply the handler repeats, waits, gives up, or stays finished. */
  lemma IdleStep(c: Config, body: Bytes, w: World, now: int, rnd: int)
    requires c.size > 0 && Inv(c, body, w) && !w.failed && rnd !in w.mids
    ensures var (s, a) := Next(c, w.s, now, rnd);
            Inv(c, body, Record(w, s, a, GivesUp(w.s, now)))
  {
    hide FrameAt, Slice, SentAfter, Blocks, RequestFrame;
    CopiesStep(c, w, Timeout(now, rnd));
  }

  lemma PossibleGives(c: Config, body: Bytes, w: World, e: Event)
    requires c.size > 0 && Possible(c, body, w, e)
    ensures e.rnd !in w.mids
  {
  }

  lemma FailedStays(c: Config, w: World, e: Event)
    requires c.size > 0 && w.failed
    ensures StepWorld(c, w, e).failed
  {
    hide Next, Absorb;
  }

  lemma ErrorFails(c: Config, w: World, e: Event)
    requires c.size > 0 && e.Rx? && Awaited(w.s, e.reply) && IsError(e.reply)
    ensures StepWorld(c, w, e).failed
  {
    hide Absorb;
  }

  /** A reply that is awaited answers the last frame, and the handler is waiting. */
  lemma AwaitedIsLast(c: Config, body: Bytes, w: World, e: Event)
    requires c.size > 0 && LogOk(c, w) && (Waiting(c, body, w) || Finished(c, body, w)) && Possible(c, body, w, e)
    requires e.Rx? && Awaited(w.s, e.reply)
    ensures Waiting(c, body, w) && ServerReply(c, body, w.log[|w.log| - 1], e.reply)
  {
    hide FrameAt, Slice, SentAfter, Blocks, ServerReply, Unfinished;
    var k :| 0 <= k < |w.log| && w.log[k].mid == e.reply.mid && ServerReply(c, body, w.log[k], e.reply);
  }

  lemma StepInv(c: Config, body: Bytes, w: World, e: Event)
    requires c.size > 0 && Inv(c, body, w) && Possible(c, body, w, e)
    ensures Inv(c, body, StepWorld(c, w, e))
  {
    hide FrameAt, Slice, SentAfter, Blocks, RequestFrame, ServerReply, Next, Possible, LogOk, CopiesOk, Waiting, Finished,
      Record, Absorb;
    CopiesStep(c, w, e);
    if w.failed {
      FailedStays(c, w, e);
    } else {
      PossibleGives(c, body, w, e);
      if e.Timeout? || !Awaited(w.s, e.reply) {
        IdleStep(c, body, w, e.now, e.rnd);
      } else if IsError(e.reply) {
        ErrorFails(c, w, e);
      } else {
        AwaitedIsLast(c, body, w, e);
        if |w.log| < Blocks(c) {
          AfterBlock(c, body, w, e.reply, e.now, e.rnd);
        } else if MoreOf(e.reply) {
          AfterBody(c, body, w, e.reply, e.now, e.rnd);
        } else {
          AfterLast(c, body, w, e.reply, e.now, e.rnd);
        }
      }
    }
  }

  lemma BeginInv(c: Config, body: Bytes, now: int, rnd: int)
    requires c.size > 0
    ensures Inv(c, body, Begin(c, now, rnd))
  {
    NextRequest(c, START, 0, rnd);
  }

  /** The invariant holds on every run. */
  lemma {:induction false} RunInv(c: Config, body: Bytes, now: int, rnd: int, events: seq<Event>)
    requires c.size > 0 && PossibleRun(c, body, Begin(c, now, rnd), events)
    ensures Inv(c, body, Run(c, Begin(c, now, rnd), events))
  {
    if events == [] {
      BeginInv(c, body, now, rnd);
    } else {
      RunInv(c, body, now, rnd, events[..|events| - 1]);
      StepInv(c, body, Run(c, Begin(c, now, rnd), events[..|events| - 1]), events[|events| - 1]);
    }
  }

  /** The request payloads of the first n frames, end to end. */
  ghost function Payloads(log: seq<Frame>): Bytes
  {
    if log == [] then []
    else Payloads(log[..|log| - 1]) + var p := log[|log| - 1].payload; if p.Some? then p.value else []
  }

  lemma {:induction false} PayloadsSent(c: Config, log: seq<Frame>)
    requires c.size > 0 && c.payload.Some? && forall j :: 0 <= j < |log| ==> log[j] == FrameAt(c, j, log[j].mid)
    ensures Payloads(log) == if log == [] then [] else c.payload.value[..Clamp(SentAfter(c, |log|), |c.payload.value|)]
  {
    if log != [] {
      var n := |log| - 1;
      PayloadsSent(c, log[..n]);
      assert log[n] == FrameAt(c, n, log[n].mid);
      PayloadAt(c, n, log[n].mid);
    }
  }

  /** Frame n carries the payload bytes between the counts before and after it. */
  lemma PayloadAt(c: Config, n: nat, mid: int)
    requires c.size > 0 && c.payload.Some?
    ensures var f, p := FrameAt(c, n, mid), c.payload.value;
            p[..Clamp(SentAfter(c, n + 1), |p|)] == (if n == 0 then [] else p[..Clamp(SentAfter(c, n), |p|)]) +
              (if f.payload.Some? then f.payload.value else [])
  {
    hide Slice;
    if |c.payload.value| > c.size {
      BlockBounds(c);
      hide Blocks;
      if n < Blocks(c) {
        MulLe(0, n, c.size);
        MulLe(n, Blocks(c) - 1, c.size);
        if n + 1 < Blocks(c) {
          MulLe(n + 1, Blocks(c) - 1, c.size);
        }
        Distribute(n, c.size);
        SliceExtends(c.payload.value, n * c.size, c.size);
      }
    }
  }

  lemma SliceExtends(p: Bytes, start: int, n: int)
    requires 0 <= start <= |p| && n >= 0
    ensures p[..Clamp(start + n, |p|)] == p[..start] + Slice(p, start, n)
  {
  }

  /** Where a request block starts is its number times the block size, and only the last has no more to come. */
  ghost predicate BlocksOk(c: Config, w: World)
    requires c.size > 0 && c.payload.Some?
  {
    forall j :: 0 <= j < |w.log| && w.log[j].block1.Some? ==>
      && w.log[j].block1.value.num * c.size == |Payloads(w.log[..j])|
      && w.log[j].block1.value.size == c.size
      && (w.log[j].block1.value.more == 0 <==> Payloads(w.log[..j + 1]) == c.payload.value)
  }

  /**
   A transfer that ends without giving up and without an error: the payloads sent under distinct IDs are
   exactly the request payload in order, every block stands at its number times the block size, and what
   has been received is exactly the server's body.
   */
  lemma TransferExact(c: Config, body: Bytes, now: int, rnd: int, events: seq<Event>)
    requires c.size > 0 && PossibleRun(c, body, Begin(c, now, rnd), events)
    ensures var w := Run(c, Begin(c, now, rnd), events);
            !w.failed && w.s.reqTimer == None ==>
              && w.s.payloadRx == body
              && (forall i, j :: 0 <= i < j < |w.log| ==> w.log[i].mid != w.log[j].mid)
              && (c.payload.Some? ==> Payloads(w.log) == c.payload.value)
  {
    RunInv(c, body, now, rnd, events);
    var w := Run(c, Begin(c, now, rnd), events);
    if !w.failed && w.s.reqTimer == None && c.payload.Some? {
      PayloadsSent(c, w.log);
    }
  }

  lemma BlocksExact(c: Config, body: Bytes, now: int, rnd: int, events: seq<Event>)
    requires c.size > 0 && c.payload.Some? && PossibleRun(c, body, Begin(c, now, rnd), events)
    ensures var w := Run(c, Begin(c, now, rnd), events); !w.failed ==> BlocksOk(c, w)
  {
    RunInv(c, body, now, rnd, events);
    var w := Run(c, Begin(c, now, rnd), events);
    if !w.failed {
      forall j | 0 <= j < |w.log| && w.log[j].block1.Some?
        ensures w.log[j].block1.value.num * c.size == |Payloads(w.log[..j])|
        ensures w.log[j].block1.value.size == c.size
        ensures w.log[j].block1.value.more == 0 <==> Payloads(w.log[..j + 1]) == c.payload.value
      {
        BlockAt(c, w.log, j);
      }
    }
  }

  lemma BlockAt(c: Config, log: seq<Frame>, j: nat)
    requires c.size > 0 && c.payload.Some? && forall i :: 0 <= i < |log| ==> log[i] == FrameAt(c, i, log[i].mid)
    requires j < |log| && log[j].block1.Some?
    ensures log[j].block1.value.num * c.size == |Payloads(log[..j])|
    ensures log[j].block1.value.size == c.size
    ensures log[j].block1.value.more == 0 <==> Payloads(log[..j + 1]) == c.payload.value
  {
    hide Payloads, Slice, Blocks;
    assert log[j] == FrameAt(c, j, log[j].mid);
    SomeBlocks(c, j);
    PayloadsSent(c, log[..j]);
    PayloadsSent(c, log[..j + 1]);
  }

  /** Where block j of several starts and ends. */
  lemma SomeBlocks(c: Config, j: nat)
    requires c.size > 0 && c.payload.Some?
    requires j < Blocks(c) && Blocks(c) > 1
    ensures 0 <= SentAfter(c, j) == j * c.size < |c.payload.value|
    ensures 0 <= SentAfter(c, j + 1) <= |c.payload.value|
    ensures j + 1 == Blocks(c) <==> SentAfter(c, j + 1) == |c.payload.value|
  {
    BlockBounds(c);
    MulLe(j, Blocks(c) - 1, c.size);
    if j + 1 < Blocks(c) {
      MulLe(j + 1, Blocks(c) - 1, c.size);
    }
  }

  // ---------- Replies that acknowledge nothing ----------

  /** The offset at which the next request block starts. */
  function Offset(s: State): int { if s.reqTxAck.Some? then s.reqTxAck.value else 0 }

  /** The count of bytes sent grows with each request frame, and reaches the payload with the last one. */
  lemma SentGrows(c: Config, n: nat)
    requires c.size > 0 && c.payload.Some? && n >= 1
    ensures SentAfter(c, n) == |c.payload.value| <==> n >= Blocks(c)
    ensures 1 < n <= Blocks(c) ==> SentAfter(c, n - 1) < SentAfter(c, n)
  {
    if |c.payload.value| > c.size {
      BlockBounds(c);
      if n <= Blocks(c) {
        MulLe(n - 1, Blocks(c) - 1, c.size);
        assert n * c.size == (n - 1) * c.size + c.size;
      }
      if n < Blocks(c) {
        MulLe(n, Blocks(c) - 1, c.size);
      }
    }
  }

  lemma NothingSent(c: Config, n: nat)
    requires c.size > 0 && c.payload == None
    ensures SentAfter(c, n) == 0 && Blocks(c) == 1
  {
  }

  /** The awaited reply completes the request iff all its frames are out, and the last of them is acknowledged. */
  lemma RequestOverIff(c: Config, body: Bytes, w: World, r: Reply)
    requires c.size > 0 && LogOk(c, w) && Waiting(c, body, w)
    ensures !Unfinished(c, Absorb(w.s, r)) <==>
              |w.log| > Blocks(c) || (|w.log| == Blocks(c) && Acknowledges(r))
  {
    hide SentAfter, Blocks, LogOk;
    var n := |w.log|;
    if c.payload.Some? {
      SentGrows(c, n);
      if n > 1 {
        SentGrows(c, n - 1);
      }
    } else {
      NothingSent(c, n);
      if n > 1 {
        NothingSent(c, n - 1);
      }
    }
  }

  /**
   After an awaited reply that is not an error, the next block carries the number of the blocks sent and the bytes
   at the acknowledged offset; number times size is that offset iff the reply acknowledges.
   */
  lemma NumberFitsIff(c: Config, body: Bytes, w: World, r: Reply, now: int, rnd: int)
    requires c.size > 0 && LogOk(c, w) && Waiting(c, body, w) && |w.log| < Blocks(c)
    requires Awaited(w.s, r) && !IsError(r)
    ensures var (s, a) := Receive(c, w.s, r, now, rnd); var offset := Offset(Absorb(w.s, r));
            && a.Answer? && a.frame.Some? && a.frame.value.block1.Some? && c.payload.Some?
            && a.frame.value.block1.value.num == |w.log|
            && a.frame.value.payload == Some(Slice(c.payload.value, offset, c.size))
            && (a.frame.value.block1.value.num * c.size == offset <==> Acknowledges(r))
  {
    var n := |w.log|;
    RequestOverIff(c, body, w, r);
    BlockBounds(c);
    MulDiv(n, c.size);
    MulLe(n, Blocks(c) - 1, c.size);
    assert n * c.size == (n - 1) * c.size + c.size;
  }

  /** More is counted as sent than there is. */
  predicate Overrun(c: Config, s: State)
  {
    c.payload.Some? && |c.payload.value| > c.size && s.reqTx.Some? && s.reqTx.value > |c.payload.value|
  }

  /** After the last of several blocks: the count of bytes sent passes the payload iff the reply acknowledges nothing. */
  lemma OverrunIff(c: Config, body: Bytes, w: World, r: Reply, now: int, rnd: int)
    requires c.size > 0 && LogOk(c, w) && Waiting(c, body, w) && |w.log| == Blocks(c) > 1
    requires Awaited(w.s, r) && !IsError(r)
    ensures var (s, a) := Receive(c, w.s, r, now, rnd);
            (Overrun(c, s) <==> !Acknowledges(r)) && (Overrun(c, s) ==> s.reqTimer.Some? && Unfinished(c, s))
  {
    RequestOverIff(c, body, w, r);
    BlockBounds(c);
  }

  /** Acknowledging such a transfer makes the next step raise. */
  lemma OverrunRaises(c: Config, s: State, r: Reply, now: int, rnd: int)
    requires c.size > 0 && Overrun(c, s) && Awaited(s, r) && !IsError(r) && Acknowledges(r)
    ensures Receive(c, s, r, now, rnd).1 == Raised
  {
    hide RequestFrame;
  }

  lemma OverrunNext(c: Config, s: State, now: int, rnd: int)
    requires c.size > 0 && Overrun(c, s)
    ensures var (t, a) := Next(c, s, now, rnd); Overrun(c, t) && (t.reqTimer.Some? || a.Raised? || GivesUp(s, now))
  {
  }

  lemma OverrunStep(c: Config, w: World, e: Event)
    requires c.size > 0 && Overrun(c, w.s) && (w.failed || w.s.reqTimer.Some?)
    ensures var v := StepWorld(c, w, e); Overrun(c, v.s) && (v.failed || v.s.reqTimer.Some?)
  {
    hide Next;
    OverrunNext(c, w.s, e.now, e.rnd);
    if e.Rx? {
      OverrunNext(c, Absorb(w.s, e.reply), e.now, e.rnd);
    }
  }

  /** Such a transfer never ends normally, whatever comes: it goes on until it gives up, meets an error, or raises. */
  lemma {:induction false} OverrunForever(c: Config, w: World, events: seq<Event>)
    requires c.size > 0 && Overrun(c, w.s) && (w.failed || w.s.reqTimer.Some?)
    ensures var v := Run(c, w, events); Overrun(c, v.s) && Unfinished(c, v.s) && (v.failed || v.s.reqTimer.Some?)
  {
    if events != [] {
      OverrunForever(c, w, events[..|events| - 1]);
      OverrunStep(c, Run(c, w, events[..|events| - 1]), events[|events| - 1]);
    }
  }

  // ---------- What is sent, whatever is answered ----------

  /** Of the awaited replies to request frames that are not errors, in order: does it acknowledge? */
  function Acks(c: Config, start: World, events: seq<Event>): seq<bool>
    requires c.size > 0
  {
    if events == [] then []
    else
      var before, e := events[..|events| - 1], events[|events| - 1];
      Acks(c, start, before) + NewAck(c, Run(c, start, before).s, e)
  }

  function NewAck(c: Config, s: State, e: Event): seq<bool>
  {
    if e.Rx? && Awaited(s, e.reply) && !IsError(e.reply) && Unfinished(c, s) then [Acknowledges(e.reply)] else []
  }

  /** The bytes acknowledged after these replies: those counted as sent at the latest acknowledgement. */
  function Acked(c: Config, acks: seq<bool>): Option<int>
    requires c.size > 0
  {
    if acks == [] then None
    else if acks[|acks| - 1] then Some(SentAfter(c, |acks|))
    else Acked(c, acks[..|acks| - 1])
  }

  function AckedBytes(c: Config, acks: seq<bool>): int
    requires c.size > 0
  {
    if Acked(c, acks).Some? then Acked(c, acks).value else 0
  }

  /** The request frame after these replies: its number counts the frames, its bytes start at the acknowledged offset. */
  function RequestAfter(c: Config, acks: seq<bool>, mid: int): Frame
    requires c.size > 0
  {
    if Blocks(c) == 1 then FrameAt(c, 0, mid)
    else FrameAt(c, |acks|, mid).(payload := Some(Slice(c.payload.value, AckedBytes(c, acks), c.size)))
  }

  predicate AsksForBody(f: Frame) { f.payload == None && f.block1 == None }

  /** The first n frames of the log carry the request, and the others ask for more of the body. */
  ghost predicate Requested(c: Config, log: seq<Frame>, acks: seq<bool>, n: nat)
    requires c.size > 0
  {
    && n <= |acks| + 1 && n <= |log|
    && (forall j :: 0 <= j < n ==> log[j] == RequestAfter(c, acks[..j], log[j].mid))
    && (forall j :: n <= j < |log| ==> AsksForBody(log[j]))
  }

  /** Where a transfer stands after these replies: waiting for the next reply to the request, or done with the request. */
  ghost predicate Progress(c: Config, w: World, acks: seq<bool>)
    requires c.size > 0
  {
    var n := |acks|;
    if Unfinished(c, w.s) then
      && w.s.reqTimer.Some? && |w.log| == n + 1 && Requested(c, w.log, acks, n + 1)
      && w.s.reqTx == Some(SentAfter(c, n + 1)) && w.s.reqTxAck == Acked(c, acks) && (Blocks(c) > 1 ==> n < Blocks(c))
    else
      && n > 0 && acks[n - 1] && Requested(c, w.log, acks, n)
      && if Blocks(c) > 1 then n == Blocks(c) else Acked(c, acks[..n - 1]) == None
  }

  /** Or it has failed, or it can only fail. */
  ghost predicate ProgressOrNever(c: Config, w: World, acks: seq<bool>)
    requires c.size > 0
  {
    w.failed || (Overrun(c, w.s) && w.s.reqTimer.Some?) || Progress(c, w, acks)
  }

  /** What is acknowledged is all that has been sent, or at least a block less. */
  lemma {:induction false} AckedAll(c: Config, acks: seq<bool>)
    requires c.size > 0 && Blocks(c) > 1 && |acks| < Blocks(c)
    ensures 0 <= AckedBytes(c, acks) <= |acks| * c.size
    ensures AckedBytes(c, acks) == |acks| * c.size || AckedBytes(c, acks) + c.size <= |acks| * c.size
    ensures AckedBytes(c, acks) == |acks| * c.size <==> acks == [] || acks[|acks| - 1]
  {
    if acks != [] {
      AckedAll(c, acks[..|acks| - 1]);
      Distribute(|acks| - 1, c.size);
    } else {
      assert 0 * c.size == 0;
    }
  }

  /** When a reply to block number n of several leaves bytes to send, they go out, and the count may pass the payload. */
  lemma NextBlock(c: Config, s: State, acks: seq<bool>, rnd: int)
    requires c.size > 0 && Blocks(c) > 1 && 0 < |acks| < Blocks(c)
    requires s.reqTx == Some(SentAfter(c, |acks|)) && s.reqTxAck == Acked(c, acks)
    ensures Unfinished(c, s) && !NoSlice(c, s) && c.payload.Some? && |c.payload.value| > c.size
    ensures var (f, tx) := RequestFrame(c, s, Frame(rnd, c.code, c.accept, None, None, None, Block(0, 0, c.size)));
            && f == RequestAfter(c, acks, rnd) && Some(tx) != s.reqTxAck
            && (tx == SentAfter(c, |acks| + 1) || tx > |c.payload.value|)
  {
    var n := |acks|;
    BlockBounds(c);
    AckedAll(c, acks);
    MulDiv(n, c.size);
    MulLe(n, Blocks(c) - 1, c.size);
    Distribute(n, c.size);
    if n + 1 < Blocks(c) {
      MulLe(n + 1, Blocks(c) - 1, c.size);
    } else {
      assert (n + 1) * c.size == Blocks(c) * c.size;
    }
  }

  /** A request of one frame goes out once more in the same form. */
  lemma SameAgain(c: Config, s: State, acks: seq<bool>, rnd: int)
    requires c.size > 0 && Blocks(c) == 1 && acks != [] && s.reqTx == Some(SentAfter(c, |acks|))
    ensures !NoSlice(c, s) && SentAfter(c, |acks| + 1) == SentAfter(c, |acks|)
    ensures RequestFrame(c, s, Frame(rnd, c.code, c.accept, None, None, None, Block(0, 0, c.size))) ==
              (RequestAfter(c, acks, rnd), SentAfter(c, |acks| + 1))
  {
    if c.payload.Some? && |c.payload.value| > c.size {
      BlockBounds(c);
    }
  }

  /** When the reply to the last of several acknowledges nothing, bytes go out again, and the count passes the payload. */
  lemma PastEnd(c: Config, s: State, acks: seq<bool>, rnd: int)
    requires c.size > 0 && Blocks(c) > 1 && |acks| == Blocks(c) && Unfinished(c, s)
    requires s.reqTx == Some(SentAfter(c, |acks|)) && s.reqTxAck == Acked(c, acks)
    ensures !NoSlice(c, s) && c.payload.Some? && |c.payload.value| > c.size
    ensures RequestFrame(c, s, Frame(rnd, c.code, c.accept, None, None, None, Block(0, 0, c.size))).1 > |c.payload.value|
  {
    BlockBounds(c);
    AckedAll(c, acks[..|acks| - 1]);
  }

  /** One frame holds all, so an acknowledgement is of everything. */
  lemma SentOne(c: Config, n: nat)
    requires c.size > 0 && Blocks(c) == 1 && n > 0
    ensures SentAfter(c, n) == if c.payload.Some? then |c.payload.value| else 0
  {
  }

  lemma {:induction false} AckedOne(c: Config, acks: seq<bool>)
    requires c.size > 0 && Blocks(c) == 1
    ensures Acked(c, acks) == if forall j :: 0 <= j < |acks| ==> !acks[j] then None else Some(SentAfter(c, 1))
  {
    if acks != [] {
      AckedOne(c, acks[..|acks| - 1]);
      SentOne(c, |acks|);
      SentOne(c, 1);
    }
  }

  /** A reply to a request frame completes the request iff it acknowledges the last one. */
  lemma OverAfter(c: Config, w: World, acks: seq<bool>, r: Reply)
    requires c.size > 0 && Progress(c, w, acks) && Unfinished(c, w.s)
    ensures var s, next := Absorb(w.s, r), acks + [Acknowledges(r)];
            && s.reqTx == Some(SentAfter(c, |next|)) && s.reqTxAck == Acked(c, next)
            && (Unfinished(c, s) <==> !Acknowledges(r) || |next| < Blocks(c))
    ensures Blocks(c) == 1 ==> Acked(c, acks) == None
  {
    hide Requested, Blocks, SentAfter;
    assert (acks + [Acknowledges(r)])[..|acks|] == acks;
    if Blocks(c) == 1 {
      AckedOne(c, acks);
      SentOne(c, |acks| + 1);
      SentOne(c, 1);
    }
    if c.payload.Some? {
      SentGrows(c, |acks| + 1);
    } else {
      NothingSent(c, |acks| + 1);
    }
  }

  /** Then the body is asked for, or the transfer ends. */
  lemma AsksOrEnds(c: Config, w: World, s: State, acks: seq<bool>, now: int, rnd: int)
    requires c.size > 0 && CopiesOk(w) && !Unfinished(c, s) && (s == w.s || s.reqTimer == None)
    requires acks != [] && acks[|acks| - 1] && Requested(c, w.log, acks, |acks|)
    requires if Blocks(c) > 1 then |acks| == Blocks(c) else Acked(c, acks[..|acks| - 1]) == None
    ensures var (t, a) := Next(c, s, now, rnd); Progress(c, Record(w, t, a, false), acks)
  {
    hide Blocks, RequestAfter;
  }

  /** Or the next request frame goes out. */
  lemma AsksAgain(c: Config, w: World, s: State, acks: seq<bool>, now: int, rnd: int)
    requires c.size > 0 && Unfinished(c, s) && s.reqTimer == None && |w.log| == |acks| > 0
    requires Requested(c, w.log, acks, |acks|) && (Blocks(c) > 1 ==> |acks| <= Blocks(c))
    requires s.reqTx == Some(SentAfter(c, |acks|)) && s.reqTxAck == Acked(c, acks)
    ensures var (t, a) := Next(c, s, now, rnd); ProgressOrNever(c, Record(w, t, a, false), acks)
  {
    hide Requested, RequestAfter, RequestFrame, Blocks, SentAfter, Acked, NoSlice;
    RequestedNext(c, w.log, acks, rnd);
    if Blocks(c) > 1 && |acks| < Blocks(c) {
      NextBlock(c, s, acks, rnd);
    } else if Blocks(c) > 1 {
      PastEnd(c, s, acks, rnd);
    } else {
      SameAgain(c, s, acks, rnd);
    }
  }

  /** A reply to a request frame: done with the request, or the next request frame goes out. */
  lemma Replied(c: Config, w: World, acks: seq<bool>, r: Reply, now: int, rnd: int)
    requires c.size > 0 && CopiesOk(w) && Progress(c, w, acks) && Unfinished(c, w.s) && !IsError(r)
    ensures var (s, a) := Next(c, Absorb(w.s, r), now, rnd);
            ProgressOrNever(c, Record(w, s, a, false), acks + [Acknowledges(r)])
  {
    hide Next, Requested, RequestFrame, Blocks, SentAfter, Acked, CopiesOk, Unfinished, Acknowledges, Record;
    assert (acks + [Acknowledges(r)])[..|acks|] == acks;
    RequestedMore(c, w.log, acks, Acknowledges(r));
    OverAfter(c, w, acks, r);
    if Unfinished(c, Absorb(w.s, r)) {
      AsksAgain(c, w, Absorb(w.s, r), acks + [Acknowledges(r)], now, rnd);
    } else {
      AsksOrEnds(c, w, Absorb(w.s, r), acks + [Acknowledges(r)], now, rnd);
    }
  }

  lemma RequestedMore(c: Config, log: seq<Frame>, acks: seq<bool>, ack: bool)
    requires c.size > 0 && Requested(c, log, acks, |acks| + 1)
    ensures Requested(c, log, acks + [ack], |acks| + 1)
  {
    hide RequestAfter;
    forall j | 0 <= j <= |acks| ensures (acks + [ack])[..j] == acks[..j] {}
  }

  lemma RequestedNext(c: Config, log: seq<Frame>, acks: seq<bool>, rnd: int)
    requires c.size > 0 && |log| == |acks| && Requested(c, log, acks, |acks|)
    ensures Requested(c, log + [RequestAfter(c, acks, rnd)], acks, |acks| + 1)
  {
    assert acks[..|acks|] == acks;
  }

  /** Without a reply, a waiting transfer repeats its last frame or gives up. */
  lemma Waits(c: Config, w: World, acks: seq<bool>, now: int, rnd: int)
    requires c.size > 0 && CopiesOk(w) && Progress(c, w, acks)
    ensures var (s, a) := Next(c, w.s, now, rnd); ProgressOrNever(c, Record(w, s, a, GivesUp(w.s, now)), acks)
  {
    hide Requested, RequestFrame, Blocks, SentAfter, Acked;
    if w.s.reqTimer == None {
      AsksOrEnds(c, w, w.s, acks, now, rnd);
    } else {
      var (s, a) := Next(c, w.s, now, rnd);
      assert Record(w, s, a, GivesUp(w.s, now)).log == w.log;
      assert Unfinished(c, s) == Unfinished(c, w.s);
    }
  }

  lemma StillOver(c: Config, w: World, acks: seq<bool>, r: Reply)
    requires c.size > 0 && Progress(c, w, acks) && !Unfinished(c, w.s)
    ensures !Unfinished(c, Absorb(w.s, r)) && acks != [] && acks[|acks| - 1]
    ensures Requested(c, w.log, acks, |acks|)
    ensures if Blocks(c) > 1 then |acks| == Blocks(c) else Acked(c, acks[..|acks| - 1]) == None
  {
    hide Requested, Blocks;
  }

  /** Every event keeps this, whatever is answered. */
  lemma ProgressStep(c: Config, w: World, acks: seq<bool>, e: Event)
    requires c.size > 0 && CopiesOk(w) && ProgressOrNever(c, w, acks)
    ensures ProgressOrNever(c, StepWorld(c, w, e), acks + NewAck(c, w.s, e))
  {
    hide Next, Record, CopiesOk, Progress, Unfinished, Overrun, Acknowledges;
    assert acks + [] == acks;
    if w.failed {
      FailedStays(c, w, e);
    } else if Overrun(c, w.s) && w.s.reqTimer.Some? {
      OverrunStep(c, w, e);
    } else if e.Timeout? || !Awaited(w.s, e.reply) {
      Waits(c, w, acks, e.now, e.rnd);
    } else if IsError(e.reply) {
      ErrorFails(c, w, e);
    } else if Unfinished(c, w.s) {
      Replied(c, w, acks, e.reply, e.now, e.rnd);
    } else {
      StillOver(c, w, acks, e.reply);
      AsksOrEnds(c, w, Absorb(w.s, e.reply), acks, e.now, e.rnd);
    }
  }

  lemma {:induction false} ProgressRun(c: Config, now: int, rnd: int, events: seq<Event>)
    requires c.size > 0
    ensures var start := Begin(c, now, rnd); ProgressOrNever(c, Run(c, start, events), Acks(c, start, events))
  {
    hide ProgressOrNever, StepWorld, NewAck, Begin, CopiesOk;
    var start := Begin(c, now, rnd);
    if events == [] {
      FirstRequest(c, now, rnd);
    } else {
      var before := events[..|events| - 1];
      ProgressRun(c, now, rnd, before);
      SixCopies(c, now, rnd, before);
      ProgressStep(c, Run(c, start, before), Acks(c, start, before), events[|events| - 1]);
    }
  }

  lemma FirstRequest(c: Config, now: int, rnd: int)
    requires c.size > 0
    ensures ProgressOrNever(c, Begin(c, now, rnd), [])
  {
    NextRequest(c, START, 0, rnd);
    if Blocks(c) > 1 {
      assert 0 * c.size == 0;
    }
  }

  /** There are as many request frames as blocks, and each starts at its number times the block size. */
  ghost predicate InOrder(c: Config, acks: seq<bool>)
    requires c.size > 0
  {
    |acks| == Blocks(c) && forall j :: 0 <= j < |acks| ==> AckedBytes(c, acks[..j]) == j * c.size
  }

  lemma OrderIff(c: Config, acks: seq<bool>)
    requires c.size > 0 && |acks| == Blocks(c) > 1 && acks[|acks| - 1]
    ensures InOrder(c, acks) <==> forall j :: 0 <= j < |acks| ==> acks[j]
  {
    hide Blocks, AckedBytes;
    forall j | 0 <= j < |acks|
      ensures AckedBytes(c, acks[..j]) == j * c.size <==> j == 0 || acks[j - 1]
    {
      AckedAll(c, acks[..j]);
    }
    if InOrder(c, acks) {
      forall i | 0 <= i < |acks| ensures acks[i] {
        assert i + 1 < |acks| ==> AckedBytes(c, acks[..i + 1]) == (i + 1) * c.size;
      }
    }
  }

  lemma OrderOne(c: Config, acks: seq<bool>)
    requires c.size > 0 && Blocks(c) == 1 && acks != [] && acks[|acks| - 1] && Acked(c, acks[..|acks| - 1]) == None
    ensures InOrder(c, acks) <==> forall j :: 0 <= j < |acks| ==> acks[j]
  {
    hide Blocks, SentAfter;
    AckedOne(c, acks[..|acks| - 1]);
    if |acks| > 1 {
      assert !acks[..|acks| - 1][0];
    } else {
      assert acks[..0] == [] && 0 * c.size == 0;
    }
  }

  // Each request frame holds the bytes at its number times the block size
  ghost predicate Placed(c: Config, log: seq<Frame>)
    requires c.size > 0 && c.payload.Some?
  {
    forall j :: 0 <= j < |log| ==> log[j].payload == Some(Slice(c.payload.value, j * c.size, c.size))
  }

  lemma OneMore(c: Config, log: seq<Frame>, n: nat)
    requires c.size > 0 && c.payload.Some? && n < |log| && log[n].payload.Some?
    ensures Payloads(log[..n + 1]) == Payloads(log[..n]) + log[n].payload.value
    ensures Placed(c, log[..n + 1]) <==>
              Placed(c, log[..n]) && log[n].payload.value == Slice(c.payload.value, n * c.size, c.size)
  {
    hide Slice;
    assert log[..n + 1][..n] == log[..n];
    assert forall j :: 0 <= j < n ==> log[..n + 1][j] == log[..n][j];
  }

  lemma Joins(p: Bytes, a: Bytes, x: Bytes, size: int)
    requires size > 0 && |a| <= |p|
    ensures a + x == p[..Clamp(|a| + size, |p|)] <==> a == p[..|a|] && x == Slice(p, |a|, size)
  {
    var q := p[..Clamp(|a| + size, |p|)];
    assert q == p[..|a|] + Slice(p, |a|, size);
    if a + x == q {
      assert a == (a + x)[..|a|] && x == (a + x)[|a|..];
      assert p[..|a|] == q[..|a|] && Slice(p, |a|, size) == q[|a|..];
    }
  }

  lemma Several(c: Config)
    requires c.size > 0 && Blocks(c) > 1
    ensures c.payload.Some? && c.size < |c.payload.value| <= Blocks(c) * c.size
    ensures (Blocks(c) - 1) * c.size < |c.payload.value|
  {
    BlockBounds(c);
  }

  /** All blocks before the last are full, wherever they start. */
  lemma {:induction false} Placing(c: Config, log: seq<Frame>, acks: seq<bool>, n: nat)
    requires c.size > 0 && c.payload.Some? && Blocks(c) > 1 && n < Blocks(c) && n < |acks|
    requires Requested(c, log, acks, |acks|)
    ensures 0 <= |Payloads(log[..n])| == n * c.size < |c.payload.value|
    ensures Payloads(log[..n]) == c.payload.value[..n * c.size] <==> Placed(c, log[..n])
  {
    hide Blocks, Payloads, Placed, Acked;
    Several(c);
    MulLe(n, Blocks(c) - 1, c.size);
    if n > 0 {
      Placing(c, log, acks, n - 1);
      FullBlock(c, log, acks, n - 1);
      OneMore(c, log, n - 1);
      Joins(c.payload.value, Payloads(log[..n - 1]), log[n - 1].payload.value, c.size);
    } else {
      NothingPlaced(c, log);
    }
  }

  lemma NothingPlaced(c: Config, log: seq<Frame>)
    requires c.size > 0 && c.payload.Some?
    ensures Payloads(log[..0]) == [] && Placed(c, log[..0]) && 0 * c.size == 0
  {
  }

  lemma FullBlock(c: Config, log: seq<Frame>, acks: seq<bool>, j: nat)
    requires c.size > 0 && c.payload.Some? && Blocks(c) > 1 && j + 1 < Blocks(c) && j < |acks|
    requires Requested(c, log, acks, |acks|)
    ensures log[j].payload.Some? && |log[j].payload.value| == c.size
    ensures (j + 1) * c.size == j * c.size + c.size <= |c.payload.value|
  {
    hide Blocks, Acked;
    Several(c);
    Distribute(j, c.size);
    MulLe(j + 1, Blocks(c) - 1, c.size);
    AckedAll(c, acks[..j]);
    assert log[j] == RequestAfter(c, acks[..j], log[j].mid);
  }

  /** The bytes sent are the payload iff each request frame holds the bytes at its number times the block size. */
  lemma PayloadIff(c: Config, log: seq<Frame>, acks: seq<bool>)
    requires c.size > 0 && c.payload.Some? && acks != [] && Requested(c, log, acks, |acks|)
    requires Blocks(c) > 1 ==> |acks| == Blocks(c)
    ensures Payloads(log) == c.payload.value <==> Placed(c, log[..|acks|])
  {
    hide Blocks, Placed, Payloads, Requested;
    OnlyRequests(c, log, acks);
    if Blocks(c) > 1 {
      LastPlaced(c, log, acks);
    } else {
      OnePlaced(c, log, acks);
    }
  }

  lemma LastPlaced(c: Config, log: seq<Frame>, acks: seq<bool>)
    requires c.size > 0 && c.payload.Some? && |acks| == Blocks(c) > 1 && Requested(c, log, acks, |acks|)
    ensures Payloads(log[..|acks|]) == c.payload.value <==> Placed(c, log[..|acks|])
  {
    hide Blocks, Placed, Payloads, Acked;
    var n, p := |acks| - 1, c.payload.value;
    Placing(c, log, acks, n);
    assert log[n] == RequestAfter(c, acks[..n], log[n].mid);
    OneMore(c, log, n);
    Joins(p, Payloads(log[..n]), log[n].payload.value, c.size);
    Several(c);
    Distribute(n, c.size);
    assert p[..|p|] == p;
  }

  lemma OnePlaced(c: Config, log: seq<Frame>, acks: seq<bool>)
    requires c.size > 0 && c.payload.Some? && Blocks(c) == 1 && acks != [] && Requested(c, log, acks, |acks|)
    ensures Payloads(log[..|acks|]) == c.payload.value <==> Placed(c, log[..|acks|])
  {
    var p := c.payload.value;
    Repeated(c, log, acks, |acks|);
    OneMore(c, log, 0);
    NothingPlaced(c, log);
    if |acks| > 1 {
      assert log[..|acks|][1].payload == Some(p);
      assert Slice(p, 1 * c.size, c.size) == [];
      if p == [] {
        forall j | 0 <= j < |acks| ensures log[..|acks|][j].payload == Some(Slice(p, j * c.size, c.size)) {}
      }
    }
  }

  /** A request of one frame goes out whole each time. */
  lemma {:induction false} Repeated(c: Config, log: seq<Frame>, acks: seq<bool>, n: nat)
    requires c.size > 0 && c.payload.Some? && Blocks(c) == 1 && n <= |acks| && Requested(c, log, acks, |acks|)
    ensures |c.payload.value| <= c.size && forall j :: 0 <= j < n ==> log[j].payload == c.payload
    ensures |Payloads(log[..n])| >= (if n > 1 then 2 else n) * |c.payload.value|
    ensures c.payload.value == [] ==> Payloads(log[..n]) == []
  {
    if |c.payload.value| > c.size {
      BlockBounds(c);
    }
    if n > 0 {
      Repeated(c, log, acks, n - 1);
      assert log[n - 1] == RequestAfter(c, acks[..n - 1], log[n - 1].mid);
      OneMore(c, log, n - 1);
    }
  }

  /** Frames that ask for the body add nothing. */
  lemma {:induction false} OnlyRequests(c: Config, log: seq<Frame>, acks: seq<bool>)
    requires c.size > 0 && Requested(c, log, acks, |acks|)
    ensures Payloads(log) == Payloads(log[..|acks|])
    decreases |log|
  {
    hide RequestAfter;
    if |log| > |acks| {
      OnlyRequests(c, log[..|log| - 1], acks);
      assert log[..|log| - 1][..|acks|] == log[..|acks|];
      assert AsksForBody(log[|log| - 1]);
    } else {
      assert log[..|acks|] == log;
    }
  }

  lemma OrderPlaced(c: Config, log: seq<Frame>, acks: seq<bool>)
    requires c.size > 0 && c.payload.Some? && InOrder(c, acks) && Requested(c, log, acks, |acks|)
    ensures Placed(c, log[..|acks|])
  {
    hide Acked, Blocks;
    if Blocks(c) > 1 {
      Several(c);
    } else {
      Repeated(c, log, acks, |acks|);
      assert Slice(c.payload.value, 0 * c.size, c.size) == c.payload.value;
    }
    forall j | 0 <= j < |acks| ensures log[j].payload == Some(Slice(c.payload.value, j * c.size, c.size)) {
      assert log[j] == RequestAfter(c, acks[..j], log[j].mid);
    }
  }

  lemma NeverUnfinished(c: Config, w: World, acks: seq<bool>)
    requires c.size > 0 && ProgressOrNever(c, w, acks) && !w.failed && w.s.reqTimer == None
    ensures !Unfinished(c, w.s) && Progress(c, w, acks)
  {
    hide Requested, Blocks, SentAfter, Acked;
  }

  /**
   Whatever is lost, repeated, invented or answered: a transfer that ends without giving up, an error or a raise has
   sent one request frame for each awaited reply to one, the last of them acknowledged; it has sent each block once
   and from its place iff every one of these replies was an acknowledged success. Then the bytes sent are the
   payload; otherwise they are so only where blocks from other places hold the same bytes.
   */
  lemma SentIffAcknowledged(c: Config, now: int, rnd: int, events: seq<Event>)
    requires c.size > 0
    ensures var w, acks := Run(c, Begin(c, now, rnd), events), Acks(c, Begin(c, now, rnd), events);
            !w.failed && w.s.reqTimer == None ==>
              && acks != [] && acks[|acks| - 1] && Requested(c, w.log, acks, |acks|)
              && (InOrder(c, acks) <==> forall j :: 0 <= j < |acks| ==> acks[j])
              && (c.payload.Some? ==>
                    && (InOrder(c, acks) ==> Payloads(w.log) == c.payload.value)
                    && (Payloads(w.log) == c.payload.value <==> Placed(c, w.log[..|acks|])))
  {
    hide Begin, Run, Acks, Requested, InOrder, Payloads, Placed, Acked, Blocks;
    ProgressRun(c, now, rnd, events);
    var w, acks := Run(c, Begin(c, now, rnd), events), Acks(c, Begin(c, now, rnd), events);
    if !w.failed && w.s.reqTimer == None {
      NeverUnfinished(c, w, acks);
      if Blocks(c) > 1 {
        OrderIff(c, acks);
      } else {
        OrderOne(c, acks);
      }
      if c.payload.Some? {
        PayloadIff(c, w.log, acks);
        if InOrder(c, acks) {
          OrderPlaced(c, w.log, acks);
        }
      }
    }
  }

  // ---------- Lost frames ----------

  /** When the timer has run out: the last frame goes out again, six times in all, and then the handler gives up. */
  lemma Expires(c: Config, w: World, now: int, rnd: int)
    requires c.size > 0 && CopiesOk(w) && w.s.reqTimer.Some? && now >= w.s.reqTimer.value
    ensures var n, v, a := |w.log| - 1, StepWorld(c, w, Timeout(now, rnd)), Next(c, w.s, now, rnd).1;
            && v.log == w.log && v.s.mid == w.s.mid
            && if w.copies[n] <= 5 then
                 && a == Answer(Some(now + 3), Some(w.log[n])) && v.s.reqTimer == Some(now + 3)
                 && v.copies == w.copies[n := w.copies[n] + 1] && v.failed == w.failed
               else a == STOP && v.s.reqTimer == None && v.copies == w.copies && v.failed
  {
  }

  /** Before that nothing goes out, and nothing changes. */
  lemma StillWaits(c: Config, w: World, now: int, rnd: int)
    requires c.size > 0 && CopiesOk(w) && w.s.reqTimer.Some? && now < w.s.reqTimer.value
    ensures Next(c, w.s, now, rnd) == (w.s, Answer(w.s.reqTimer, None))
    ensures var v := StepWorld(c, w, Timeout(now, rnd));
            v.s == w.s && v.log == w.log && v.copies == w.copies && v.failed == w.failed
  {
  }

  /** Every event is a timeout that finds the timer run out. */
  ghost predicate Expiries(c: Config, w: World, events: seq<Event>)
    requires c.size > 0
  {
    events == [] ||
    var before, e := events[..|events| - 1], events[|events| - 1];
    Expiries(c, w, before) && e.Timeout? && (var t := Run(c, w, before).s.reqTimer; t.Some? ==> e.now >= t.value)
  }

  /** Without an answer each expiry sends one more copy of the last frame, and the one after the sixth copy gives up. */
  lemma {:induction false} Unanswered(c: Config, w: World, events: seq<Event>)
    requires c.size > 0 && CopiesOk(w) && w.s.reqTimer.Some? && Expiries(c, w, events)
    requires w.copies[|w.log| - 1] + |events| <= 7
    ensures var v, n, k := Run(c, w, events), |w.log| - 1, w.copies[|w.log| - 1] + |events|;
            && v.log == w.log && v.s.mid == w.s.mid && CopiesOk(v)
            && if k <= 6 then v.s.reqTimer.Some? && v.copies == w.copies[n := k] && v.failed == w.failed
               else v.s.reqTimer == None && v.failed
  {
    hide StepWorld, Next, CopiesOk;
    if events == [] {
      SameCopies(w);
    } else {
      var before, e := events[..|events| - 1], events[|events| - 1];
      Unanswered(c, w, before);
      LastCopy(w);
      var v := Run(c, w, before);
      CopiesStep(c, v, e);
      LastCopy(v);
      Expires(c, v, e.now, e.rnd);
    }
  }

  lemma LastCopy(w: World)
    requires CopiesOk(w) && w.s.reqTimer.Some?
    ensures |w.copies| == |w.log| > 0
  {
  }

  lemma SameCopies(w: World)
    requires CopiesOk(w) && w.s.reqTimer.Some?
    ensures |w.copies| == |w.log| > 0 && 1 <= w.copies[|w.log| - 1] <= 6
    ensures w.copies[|w.log| - 1 := w.copies[|w.log| - 1]] == w.copies
  {
  }

  // ---------- Answered frames ----------

  /** The frames of a transfer: the blocks of the request, and one more for each block of the body after the first. */
  function Frames(c: Config, body: Bytes): nat
    requires c.size > 0
  {
    Blocks(c) + if |body| <= c.size then 0 else DivBounds(|body| - 1, c.size); (|body| - 1) / c.size
  }

  /** The awaited replies of a run. */
  function Answers(c: Config, start: World, events: seq<Event>): nat
    requires c.size > 0
  {
    if events == [] then 0
    else
      var before, e := events[..|events| - 1], events[|events| - 1];
      Answers(c, start, before) + if e.Rx? && Awaited(Run(c, start, before).s, e.reply) then 1 else 0
  }

  /** An awaited error, or the timer running out once more after the sixth copy. */
  predicate Fatal(w: World, e: Event)
  {
    if e.Rx? && Awaited(w.s, e.reply) then IsError(e.reply)
    else w.s.reqTimer.Some? && e.now >= w.s.reqTimer.value && w.copies != [] && w.copies[|w.copies| - 1] == 6
  }

  ghost predicate NeverFatal(c: Config, start: World, events: seq<Event>)
    requires c.size > 0
  {
    events == [] ||
    var before := events[..|events| - 1];
    NeverFatal(c, start, before) && !Fatal(Run(c, start, before), events[|events| - 1])
  }

  /** Which frame a transfer is at, after how many answers. */
  ghost predicate At(c: Config, body: Bytes, w: World, answers: nat)
    requires c.size > 0
  {
    && CopiesOk(w) && LogOk(c, w) && !w.failed
    && if answers < Frames(c, body) then Waiting(c, body, w) && |w.log| == answers + 1
       else answers == Frames(c, body) == |w.log| && Finished(c, body, w)
  }

  /** The last frame is the one behind which the server's body has no more. */
  lemma LastFrame(c: Config, body: Bytes, n: nat)
    requires c.size > 0 && n >= Blocks(c)
    ensures (n - Blocks(c) + 1) * c.size < |body| <==> n < Frames(c, body)
  {
    hide Blocks;
    var k := n - Blocks(c);
    if |body| > c.size {
      var m := (|body| - 1) / c.size;
      DivBounds(|body| - 1, c.size);
      if k + 1 <= m {
        MulLe(k + 1, m, c.size);
      } else {
        MulLe(m + 1, k + 1, c.size);
      }
    } else {
      MulLe(1, k + 1, c.size);
    }
  }

  /** What the server says about more to come. */
  lemma MoreIff(c: Config, body: Bytes, w: World, r: Reply)
    requires c.size > 0 && LogOk(c, w) && Waiting(c, body, w) && |w.log| >= Blocks(c)
    requires !IsError(r) && ServerReply(c, body, w.log[|w.log| - 1], r)
    ensures MoreOf(r) <==> |w.log| < Frames(c, body)
  {
    hide Blocks, SentAfter, Slice, ServerReply, Waiting, LogOk, Frames;
    BodyGrows(c, body, w, r);
    LastFrame(c, body, |w.log|);
  }

  /** An answer takes the transfer to the next frame, or finishes it. */
  lemma AnswerStep(c: Config, body: Bytes, w: World, answers: nat, e: Event)
    requires c.size > 0 && At(c, body, w, answers) && Possible(c, body, w, e)
    requires e.Rx? && Awaited(w.s, e.reply) && !IsError(e.reply)
    ensures At(c, body, StepWorld(c, w, e), answers + 1)
  {
    hide FrameAt, Slice, SentAfter, Blocks, RequestFrame, ServerReply, Next, Possible, LogOk, CopiesOk, Waiting, Finished,
      Record, Absorb, Frames;
    CopiesStep(c, w, e);
    PossibleGives(c, body, w, e);
    AwaitedIsLast(c, body, w, e);
    AwaitedNotDone(c, body, w, answers, e);
    if |w.log| < Blocks(c) {
      AfterBlock(c, body, w, e.reply, e.now, e.rnd);
      FramesMany(c, body);
    } else {
      MoreIff(c, body, w, e.reply);
      if MoreOf(e.reply) {
        AfterBody(c, body, w, e.reply, e.now, e.rnd);
      } else {
        AfterLast(c, body, w, e.reply, e.now, e.rnd);
        LogStays(c, body, w, e);
      }
    }
  }

  lemma FramesMany(c: Config, body: Bytes)
    requires c.size > 0
    ensures Frames(c, body) >= Blocks(c) >= 1
  {
    hide Blocks;
  }

  /** While a reply is awaited, the transfer is not finished. */
  lemma AwaitedNotDone(c: Config, body: Bytes, w: World, answers: nat, e: Event)
    requires c.size > 0 && At(c, body, w, answers) && Waiting(c, body, w)
    ensures answers < Frames(c, body)
  {
    hide FrameAt, Slice, SentAfter, Blocks, LogOk, CopiesOk, Frames;
  }

  /** The step that stops the timer sends nothing. */
  lemma LogStays(c: Config, body: Bytes, w: World, e: Event)
    requires c.size > 0 && e.Rx? && Awaited(w.s, e.reply) && !IsError(e.reply) && Finished(c, body, StepWorld(c, w, e))
    ensures StepWorld(c, w, e).log == w.log
  {
    hide FrameAt, Slice, SentAfter, Blocks, RequestFrame;
  }

  /** Anything that is not fatal and not an answer keeps the transfer where it is. */
  lemma OtherStep(c: Config, body: Bytes, w: World, answers: nat, e: Event)
    requires c.size > 0 && At(c, body, w, answers) && Possible(c, body, w, e) && !Fatal(w, e)
    requires e.Timeout? || !Awaited(w.s, e.reply)
    ensures At(c, body, StepWorld(c, w, e), answers)
  {
    hide FrameAt, Slice, SentAfter, Blocks, RequestFrame, ServerReply, Frames;
    CopiesStep(c, w, e);
    PossibleGives(c, body, w, e);
  }

  lemma {:induction false} RunIsAt(c: Config, body: Bytes, now: int, rnd: int, events: seq<Event>)
    requires c.size > 0 && PossibleRun(c, body, Begin(c, now, rnd), events) && NeverFatal(c, Begin(c, now, rnd), events)
    ensures At(c, body, Run(c, Begin(c, now, rnd), events), Answers(c, Begin(c, now, rnd), events))
  {
    hide StepWorld, At, Begin, Possible, Fatal;
    var start := Begin(c, now, rnd);
    if events == [] {
      BeginIsAt(c, body, now, rnd);
    } else {
      var before, e := events[..|events| - 1], events[|events| - 1];
      RunIsAt(c, body, now, rnd, before);
      var w, n := Run(c, start, before), Answers(c, start, before);
      if e.Rx? && Awaited(w.s, e.reply) {
        FatalError(w, e);
        AnswerStep(c, body, w, n, e);
      } else {
        OtherStep(c, body, w, n, e);
      }
    }
  }

  lemma FatalError(w: World, e: Event)
    requires e.Rx? && Awaited(w.s, e.reply) && !Fatal(w, e)
    ensures !IsError(e.reply)
  {
  }

  lemma BeginIsAt(c: Config, body: Bytes, now: int, rnd: int)
    requires c.size > 0
    ensures At(c, body, Begin(c, now, rnd), 0)
  {
    BeginInv(c, body, now, rnd);
    FramesMany(c, body);
    BeginWaits(c, body, now, rnd);
  }

  lemma BeginWaits(c: Config, body: Bytes, now: int, rnd: int)
    requires c.size > 0
    ensures Waiting(c, body, Begin(c, now, rnd)) && LogOk(c, Begin(c, now, rnd)) && |Begin(c, now, rnd).log| == 1
    ensures !Begin(c, now, rnd).failed
  {
    NextRequest(c, START, 0, rnd);
  }

  /** A run fails exactly at an awaited error, or when six copies of one frame have not been answered in time. */
  lemma {:induction false} FailsIff(c: Config, body: Bytes, now: int, rnd: int, events: seq<Event>)
    requires c.size > 0 && PossibleRun(c, body, Begin(c, now, rnd), events)
    ensures Run(c, Begin(c, now, rnd), events).failed <==> !NeverFatal(c, Begin(c, now, rnd), events)
  {
    hide StepWorld, At, Begin, Possible, Fatal;
    var start := Begin(c, now, rnd);
    if NeverFatal(c, start, events) {
      RunIsAt(c, body, now, rnd, events);
      AtNotFailed(c, body, Run(c, start, events), Answers(c, start, events));
    } else {
      var before, e := events[..|events| - 1], events[|events| - 1];
      FailsIff(c, body, now, rnd, before);
      var w := Run(c, start, before);
      if w.failed {
        FailedStays(c, w, e);
      } else {
        RunIsAt(c, body, now, rnd, before);
        FatalFails(c, body, w, Answers(c, start, before), e);
      }
    }
  }

  lemma AtNotFailed(c: Config, body: Bytes, w: World, answers: nat)
    requires c.size > 0 && At(c, body, w, answers)
    ensures !w.failed
  {
  }

  lemma FatalFails(c: Config, body: Bytes, w: World, answers: nat, e: Event)
    requires c.size > 0 && At(c, body, w, answers) && Fatal(w, e)
    ensures StepWorld(c, w, e).failed
  {
    hide FrameAt, Slice, SentAfter, Blocks, RequestFrame, Frames, LogOk, Waiting, Finished;
    if e.Rx? && Awaited(w.s, e.reply) {
      ErrorFails(c, w, e);
    }
  }

  /**
   However many copies and replies are lost, repeated or late: as long as some copy of each frame is answered in time,
   each answer lets the next frame go out, and the answer to the last one finishes the transfer.
   */
  lemma AnsweredFinishes(c: Config, body: Bytes, now: int, rnd: int, events: seq<Event>)
    requires c.size > 0 && PossibleRun(c, body, Begin(c, now, rnd), events) && NeverFatal(c, Begin(c, now, rnd), events)
    ensures var w, n := Run(c, Begin(c, now, rnd), events), Answers(c, Begin(c, now, rnd), events);
            && !w.failed && n <= Frames(c, body) && |w.log| == (if n < Frames(c, body) then n + 1 else n)
            && (w.s.reqTimer == None <==> n == Frames(c, body))
            && (n == Frames(c, body) ==> w.s.payloadRx == body && (c.payload.Some? ==> Payloads(w.log) == c.payload.value))
  {
    hide Begin, Run, Answers, PossibleRun, NeverFatal, Payloads, Frames;
    RunIsAt(c, body, now, rnd, events);
    TransferExact(c, body, now, rnd, events);
    AtMeans(c, body, Run(c, Begin(c, now, rnd), events), Answers(c, Begin(c, now, rnd), events));
  }

  lemma AtMeans(c: Config, body: Bytes, w: World, answers: nat)
    requires c.size > 0 && At(c, body, w, answers)
    ensures !w.failed && answers <= Frames(c, body) && |w.log| == if answers < Frames(c, body) then answers + 1 else answers
    ensures w.s.reqTimer == None <==> answers == Frames(c, body)
  {
    hide FrameAt, Slice, SentAfter, Blocks, LogOk, CopiesOk, Frames, Unfinished;
  }

  /** A frame that goes out for the first time sets the timer, three seconds on. */
  lemma SetsTimer(c: Config, s: State, now: int, rnd: int)
    requires c.size > 0 && s.reqTimer == None
    ensures var (t, a) := Next(c, s, now, rnd);
            a.Answer? ==> a.timer == t.reqTimer == (if a.frame.Some? then Some(now + 3) else None)
  {
    hide Slice;
  }

  /** The fields of every frame: the caller's code and options, and the next block of the body wanted. */
  lemma FrameFields(c: Config, body: Bytes, now: int, rnd: int, events: seq<Event>)
    requires c.size > 0 && PossibleRun(c, body, Begin(c, now, rnd), events)
    ensures var w := Run(c, Begin(c, now, rnd), events);
            !w.failed ==> forall j :: 0 <= j < |w.log| ==>
              var f, request := w.log[j], j < Blocks(c);
              && f.code == c.code && f.accept == c.accept
              && f.contentType == (if request && c.payload.Some? then c.contentType else None)
              && (f.block1.Some? <==> request && Blocks(c) > 1)
              && f.block2 == Block(if request then 0 else j - Blocks(c) + 1, 0, c.size)
  {
    RunInv(c, body, now, rnd, events);
    var w := Run(c, Begin(c, now, rnd), events);
    if !w.failed {
      forall j | 0 <= j < |w.log|
        ensures var f, request := w.log[j], j < Blocks(c);
                && f.code == c.code && f.accept == c.accept
                && f.contentType == (if request && c.payload.Some? then c.contentType else None)
                && (f.block1.Some? <==> request && Blocks(c) > 1)
                && f.block2 == Block(if request then 0 else j - Blocks(c) + 1, 0, c.size)
      {
        FieldsAt(c, j, w.log[j].mid);
      }
    }
  }

  lemma FieldsAt(c: Config, j: nat, mid: int)
    requires c.size > 0
    ensures var f, request := FrameAt(c, j, mid), j < Blocks(c);
            && f.mid == mid && f.code == c.code && f.accept == c.accept
            && f.contentType == (if request && c.payload.Some? then c.contentType else None)
            && (f.block1.Some? <==> request && Blocks(c) > 1)
            && f.block2 == Block(if request then 0 else j - Blocks(c) + 1, 0, c.size)
  {
    if c.payload.Some? && |c.payload.value| > c.size {
      BlockBounds(c);
    }
  }

  // ---------- A transfer can finish ----------

  /** What a server with this body answers to f. */
  function HonestReply(c: Config, body: Bytes, f: Frame): Reply
    requires c.size > 0
  {
    if f.block1.Some? && f.block1.value.more == 1 then Reply(f.mid, TYPE_ACK, 2, 31, None, None)
    else
      var more := if (f.block2.num + 1) * c.size < |body| then 1 else 0;
      Reply(f.mid, TYPE_ACK, 2, 5, Some(Slice(body, f.block2.num * c.size, c.size)), Some(Block(f.block2.num, more, c.size)))
  }

  lemma Member<T>(s: set<T>) returns (x: T)
    requires s != {}
    ensures x in s
  {
    x :| x in s;
  }

  lemma FreshId(ids: set<int>) returns (m: int)
    ensures forall x :: x in ids ==> x < m
  {
    if ids == {} {
      m := 0;
    } else {
      var y := Member(ids);
      var n := FreshId(ids - {y});
      m := if y < n then n else y + 1;
      assert forall x :: x in ids ==> x == y || x in ids - {y};
    }
  }

  lemma {:induction false} RunFirst(c: Config, body: Bytes, w: World, e: Event, events: seq<Event>)
    requires c.size > 0 && Possible(c, body, w, e) && PossibleRun(c, body, StepWorld(c, w, e), events)
    ensures PossibleRun(c, body, w, [e] + events)
    ensures Run(c, w, [e] + events) == Run(c, StepWorld(c, w, e), events)
  {
    hide StepWorld, Possible;
    var all := [e] + events;
    if events == [] {
      assert all == [e] && all[..0] == [] && all[|all| - 1] == e;
    } else {
      assert all[..|all| - 1] == [e] + events[..|events| - 1] && all[|all| - 1] == events[|events| - 1];
      RunFirst(c, body, w, e, events[..|events| - 1]);
    }
  }

  lemma MoreReceived(c: Config, body: Bytes, w: World, v: World)
    requires c.size > 0 && Waiting(c, body, w) && Waiting(c, body, v)
    requires |v.log| == |w.log| + 1 && |w.log| >= Blocks(c)
    ensures |w.s.payloadRx| < |v.s.payloadRx| <= |body|
  {
    hide Waiting, Blocks;
    Received(c, body, w);
    Received(c, body, v);
    Distribute(|w.log| - Blocks(c), c.size);
  }

  lemma Distribute(k: int, b: int)
    ensures (k + 1) * b == k * b + b
  {
  }

  lemma Received(c: Config, body: Bytes, w: World)
    requires c.size > 0 && Waiting(c, body, w) && |w.log| >= Blocks(c)
    ensures |w.s.payloadRx| == (|w.log| - Blocks(c)) * c.size <= |body|
  {
    hide Blocks, SentAfter, MoreOf, PayloadOf;
    var k := |w.log| - Blocks(c);
    MulLe(0, k, c.size);
    if k == 0 {
      assert k * c.size == 0;
    } else {
      assert w.s.payloadRx == body[..k * c.size];
    }
  }

  /** An honest reply brings the transfer one frame further. */
  lemma Advances(c: Config, body: Bytes, w: World, r: Reply, rnd: int)
    requires c.size > 0 && CopiesOk(w) && LogOk(c, w) && Waiting(c, body, w) && !w.failed && rnd !in w.mids
    requires Awaited(w.s, r) && !IsError(r) && ServerReply(c, body, w.log[|w.log| - 1], r)
    ensures var v := StepWorld(c, w, Rx(r, 0, rnd));
            !v.failed && (Finished(c, body, v) ||
              (Waiting(c, body, v) && |v.log| == |w.log| + 1 &&
               (|w.log| >= Blocks(c) ==> |w.s.payloadRx| < |v.s.payloadRx| <= |body|)))
  {
    hide FrameAt, SentAfter, ServerReply, Slice, StepWorld, LogOk, Finished, Waiting, Blocks;
    if |w.log| < Blocks(c) {
      AfterBlock(c, body, w, r, 0, rnd);
    } else if !MoreOf(r) {
      AfterLast(c, body, w, r, 0, rnd);
    } else {
      AfterBody(c, body, w, r, 0, rnd);
      MoreReceived(c, body, w, StepWorld(c, w, Rx(r, 0, rnd)));
    }
  }

  lemma HonestPossible(c: Config, body: Bytes, w: World, e: Event)
    requires c.size > 0 && LogOk(c, w) && Waiting(c, body, w)
    requires e.Rx? && e.reply == HonestReply(c, body, w.log[|w.log| - 1]) && e.rnd !in w.mids
    ensures Possible(c, body, w, e) && Awaited(w.s, e.reply) && !IsError(e.reply)
    ensures ServerReply(c, body, w.log[|w.log| - 1], e.reply)
  {
    hide FrameAt, SentAfter, Slice;
    assert ServerReply(c, body, w.log[|w.log| - 1], e.reply);
  }

  /** From any waiting state some possible run, a reply to each frame, finishes the transfer. */
  lemma {:induction false} CanFinish(c: Config, body: Bytes, w: World) returns (events: seq<Event>)
    requires c.size > 0 && Inv(c, body, w) && !w.failed && Waiting(c, body, w)
    ensures PossibleRun(c, body, w, events)
    ensures var v := Run(c, w, events); !v.failed && Finished(c, body, v)
    decreases if |w.log| < Blocks(c) then Blocks(c) - |w.log| else 0, |body| - |w.s.payloadRx|
  {
    hide FrameAt, SentAfter, Next, Slice, StepWorld, Finished, HonestReply, ServerReply, Possible, LogOk, CopiesOk;
    var r := HonestReply(c, body, w.log[|w.log| - 1]);
    var rnd := FreshId(w.mids);
    var e := Rx(r, 0, rnd);
    HonestPossible(c, body, w, e);
    StepInv(c, body, w, e);
    Advances(c, body, w, r, rnd);
    var v := StepWorld(c, w, e);
    if Finished(c, body, v) {
      events := [e];
      assert [e][..0] == [];
    } else {
      var rest := CanFinish(c, body, v);
      RunFirst(c, body, w, e, rest);
      events := [e] + rest;
    }
  }
}
