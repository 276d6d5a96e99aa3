/**
 The DTLS client: handshake states, the record layer's security parameters, and what has to have
 happened before application data is sent.
 */
module Dtls {
  import opened Common

  // Handshake message types.
  const CLIENT_HELLO := 1
  const SERVER_HELLO := 2
  const HELLO_VERIFY_REQUEST := 3
  const CERTIFICATE := 11
  const SERVER_KEY_EXCHANGE := 12
  const CERTIFICATE_REQUEST := 13
  const SERVER_HELLO_DONE := 14
  const CERTIFICATE_VERIFY := 15
  const CLIENT_KEY_EXCHANGE := 16
  const FINISHED := 20

  // Cipher suites.
  const NULL_SUITE := 0x0000
  const AES_CCM_8 := 0xC0AE

  const POLLS := 20
  const RECORD_LIMIT := 0x1_0000_0000_0000

  datatype HsState =
    | Idle | SendHelloNoCookie | WaitHelloVerify | SendHelloCookie | WaitServerHello | WaitCertificate | WaitKeyExchange
    | WaitCertRequest | WaitHelloDone | SendCertificate | SendKeyExchange | CalcMaster | CalcParams | SendCertVerify
    | SendChangeCipher | SendFinished | WaitChangeCipher | WaitFinished | Failed

  /**
   How a call ends: normally, with a RuntimeError, or with an exception that no rescue catches; NoKey is the one for
   using the ephemeral key when it is gone.
   */
  datatype Exit = Normal | RuntimeError | OtherError | NoKey

  /** What the checks on a received body say: a value, a failed hs_check, or an exception of another class. */
  datatype Verdict<T> = Accept(value: T) | Refuse | Crash

  /** The cryptography and the parsers of the server's messages. */
  datatype Crypto = Crypto(
    sha: Bytes -> Bytes,
    prf: (Bytes, string, Bytes) -> Bytes,
    dh: (Bytes, Bytes) -> Bytes,
    sign: Bytes -> Bytes,
    wrap: (int, nat, Bytes) -> Bytes,
    helloVerify: Bytes -> Verdict<Bytes>,
    serverHello: Bytes -> Verdict<(Bytes, bool)>,
    certificate: Bytes -> Verdict<Bytes>,
    keyExchange: (Bytes, Bytes, Bytes) -> Verdict<Bytes>,
    certRequest: Bytes -> Verdict<()>,
    clientHello: (Bytes, Bytes) -> Bytes,
    clientCertificate: Bytes)

  // ---------- What happened ----------

  /** The course of events, as the wire and the key schedule show it. */
  datatype Event =
    | SentHs(kind: int, bytes: Bytes, body: Bytes)
    | ReceivedHs(kind: int, bytes: Bytes, body: Bytes)
    | SentCcs
    | ReceivedCcs
    | Keys(master: Bytes)
    | SentApp(data: Bytes)

  /** The handshake messages since the latest ClientHello. */
  function Transcript(log: seq<Event>): Bytes
  {
    if log == [] then [] else
      var e, front := log[|log| - 1], log[..|log| - 1];
      if e.SentHs? && e.kind == CLIENT_HELLO then e.bytes
      else if e.SentHs? || e.ReceivedHs? then Transcript(front) + e.bytes
      else Transcript(front)
  }

  /** How far the latest handshake has got, read off the events alone. */
  datatype Stage = Open | Keyed(master: Bytes) | SentFin(master: Bytes) | Changed(master: Bytes) | Done(master: Bytes)

  predicate FinishedIs(c: Crypto, master: Bytes, tag: string, log: seq<Event>, body: Bytes)
  {
    body == c.prf(master, tag, c.sha(Transcript(log)))
  }

  function StageOf(c: Crypto, log: seq<Event>): Stage
  {
    if log == [] then Open else
      var e, front := log[|log| - 1], log[..|log| - 1];
      var s := StageOf(c, front);
      match e
      case SentHs(kind, _, body) =>
        if kind == CLIENT_HELLO then Open
        else if kind == FINISHED && s.Keyed? && FinishedIs(c, s.master, "client finished", front, body) then SentFin(s.master)
        else s
      case Keys(m) => Keyed(m)
      case ReceivedCcs => if s.SentFin? then Changed(s.master) else s
      case ReceivedHs(kind, _, body) =>
        if kind == FINISHED && s.Changed? && FinishedIs(c, s.master, "server finished", front, body) then Done(s.master) else s
      case _ => s
  }

  /** How often a master secret was derived. */
  function Derivations(log: seq<Event>): nat
  {
    if log == [] then 0 else Derivations(log[..|log| - 1]) + if log[|log| - 1].Keys? then 1 else 0
  }

  lemma {:induction false} DerivationsGrow(log: seq<Event>, n: nat)
    requires n <= |log|
    ensures Derivations(log[..n]) <= Derivations(log)
  {
    if n < |log| {
      DerivationsGrow(log[..|log| - 1], n);
      assert log[..|log| - 1][..n] == log[..n];
    } else {
      assert log[..n] == log;
    }
  }

  ghost predicate HelloAt(log: seq<Event>, n: nat) { n < |log| && log[n].SentHs? && log[n].kind == CLIENT_HELLO }

  /** With no derivation since a ClientHello, no handshake has got anywhere since. */
  lemma {:induction false} StaleKeys(c: Crypto, log: seq<Event>, n: nat)
    requires HelloAt(log, n) && Derivations(log[..n]) == Derivations(log)
    ensures StageOf(c, log).Open?
  {
    hide FinishedIs;
    var front := log[..|log| - 1];
    if n < |front| {
      assert front[..n] == log[..n];
      DerivationsGrow(front, n);
      StaleKeys(c, front, n);
    }
  }

  /** Application data goes out only after a completed handshake. */
  ghost predicate AppsSafe(c: Crypto, log: seq<Event>)
  {
    forall i :: 0 <= i < |log| && log[i].SentApp? ==> StageOf(c, log[..i]).Done?
  }

  /** No ClientHello from position i on. */
  predicate NoHello(log: seq<Event>, i: nat)
  {
    forall k :: i <= k < |log| ==> !(log[k].SentHs? && log[k].kind == CLIENT_HELLO)
  }

  ghost predicate KeysAt(log: seq<Event>, m: Bytes, a: nat) { a < |log| && log[a] == Keys(m) && NoHello(log, a) }

  ghost predicate SentFinAt(c: Crypto, log: seq<Event>, m: Bytes, a: nat, b: nat)
  {
    && KeysAt(log, m, a) && a < b < |log| && log[b].SentHs? && log[b].kind == FINISHED
    && FinishedIs(c, m, "client finished", log[..b], log[b].body)
  }

  ghost predicate ChangedAt(c: Crypto, log: seq<Event>, m: Bytes, a: nat, b: nat, d: nat)
  {
    SentFinAt(c, log, m, a, b) && b < d < |log| && log[d] == ReceivedCcs
  }

  ghost predicate DoneAt(c: Crypto, log: seq<Event>, m: Bytes, a: nat, b: nat, d: nat, e: nat)
  {
    && ChangedAt(c, log, m, a, b, d) && d < e < |log| && log[e].ReceivedHs? && log[e].kind == FINISHED
    && FinishedIs(c, m, "server finished", log[..e], log[e].body)
  }

  lemma KeysExtend(log: seq<Event>, e: Event, m: Bytes, a: nat)
    requires KeysAt(log, m, a) && !(e.SentHs? && e.kind == CLIENT_HELLO)
    ensures KeysAt(log + [e], m, a)
  {
  }

  lemma {:induction false} KeyedMeans(c: Crypto, log: seq<Event>)
    requires !StageOf(c, log).Open?
    ensures exists a: nat :: KeysAt(log, StageOf(c, log).master, a)
  {
    var e, front := log[|log| - 1], log[..|log| - 1];
    assert log == front + [e];
    if e.Keys? {
      assert KeysAt(log, e.master, |front|);
    } else {
      KeyedMeans(c, front);
      var a: nat :| KeysAt(front, StageOf(c, front).master, a);
      KeysExtend(front, e, StageOf(c, front).master, a);
    }
  }

  lemma SentFinExtend(c: Crypto, log: seq<Event>, e: Event, m: Bytes, a: nat, b: nat)
    requires SentFinAt(c, log, m, a, b) && !(e.SentHs? && e.kind == CLIENT_HELLO)
    ensures SentFinAt(c, log + [e], m, a, b)
  {
    KeysExtend(log, e, m, a);
    assert (log + [e])[..b] == log[..b];
  }

  lemma {:induction false} SentFinMeans(c: Crypto, log: seq<Event>)
    requires StageOf(c, log).SentFin? || StageOf(c, log).Changed? || StageOf(c, log).Done?
    ensures exists a: nat, b: nat :: SentFinAt(c, log, StageOf(c, log).master, a, b)
  {
    hide FinishedIs;
    var e, front := log[|log| - 1], log[..|log| - 1];
    var m := StageOf(c, log).master;
    assert log == front + [e];
    if StageOf(c, front).Keyed? {
      KeyedMeans(c, front);
      var a: nat :| KeysAt(front, m, a);
      KeysExtend(front, e, m, a);
      assert SentFinAt(c, log, m, a, |front|);
    } else {
      SentFinMeans(c, front);
      var a: nat, b: nat :| SentFinAt(c, front, m, a, b);
      SentFinExtend(c, front, e, m, a, b);
    }
  }

  lemma {:induction false} ChangedMeans(c: Crypto, log: seq<Event>)
    requires StageOf(c, log).Changed? || StageOf(c, log).Done?
    ensures exists a: nat, b: nat, d: nat :: ChangedAt(c, log, StageOf(c, log).master, a, b, d)
  {
    hide FinishedIs, SentFinAt;
    var e, front := log[|log| - 1], log[..|log| - 1];
    var m := StageOf(c, log).master;
    assert log == front + [e];
    if StageOf(c, front).SentFin? {
      SentFinMeans(c, front);
      var a: nat, b: nat :| SentFinAt(c, front, m, a, b);
      SentFinExtend(c, front, e, m, a, b);
      SentFinBound(c, front, m, a, b);
      assert ChangedAt(c, log, m, a, b, |front|);
    } else {
      ChangedMeans(c, front);
      var a: nat, b: nat, d: nat :| ChangedAt(c, front, m, a, b, d);
      SentFinExtend(c, front, e, m, a, b);
      assert ChangedAt(c, log, m, a, b, d);
    }
  }

  lemma SentFinBound(c: Crypto, log: seq<Event>, m: Bytes, a: nat, b: nat)
    requires SentFinAt(c, log, m, a, b)
    ensures b < |log|
  {
  }

  lemma ChangedExtend(c: Crypto, log: seq<Event>, e: Event, m: Bytes, a: nat, b: nat, d: nat)
    requires ChangedAt(c, log, m, a, b, d) && !(e.SentHs? && e.kind == CLIENT_HELLO)
    ensures ChangedAt(c, log + [e], m, a, b, d)
  {
    SentFinExtend(c, log, e, m, a, b);
  }

  /**
   A completed handshake means: after the latest ClientHello the keys were derived, then the client's
   Finished was sent over the transcript so far, then the server's ChangeCipherSpec came, then a
   Finished of the server that matches the transcript so far.
   */
  lemma {:induction false} DoneMeans(c: Crypto, log: seq<Event>)
    requires StageOf(c, log).Done?
    ensures WholeHandshake(c, log, StageOf(c, log).master)
  {
    hide FinishedIs, ChangedAt;
    var e, front := log[|log| - 1], log[..|log| - 1];
    var m := StageOf(c, log).master;
    assert log == front + [e];
    if StageOf(c, front).Changed? {
      ChangedMeans(c, front);
      var a: nat, b: nat, d: nat :| ChangedAt(c, front, m, a, b, d);
      ChangedExtend(c, front, e, m, a, b, d);
      ChangedBound(c, front, m, a, b, d);
      assert DoneAt(c, log, m, a, b, d, |front|);
    } else {
      DoneMeans(c, front);
      var a: nat, b: nat, d: nat, i: nat :| DoneAt(c, front, m, a, b, d, i);
      ChangedExtend(c, front, e, m, a, b, d);
      assert log[..i] == front[..i];
      assert DoneAt(c, log, m, a, b, d, i);
    }
  }

  /** The four events of a completed handshake, in order and since the latest ClientHello. */
  ghost predicate WholeHandshake(c: Crypto, log: seq<Event>, m: Bytes)
  {
    exists a: nat, b: nat, d: nat, e: nat :: DoneAt(c, log, m, a, b, d, e)
  }

  lemma ChangedBound(c: Crypto, log: seq<Event>, m: Bytes, a: nat, b: nat, d: nat)
    requires ChangedAt(c, log, m, a, b, d)
    ensures d < |log|
  {
  }

  // ---------- The record layer ----------

  class SecurityParameters {
    const cipher: int
    const epoch: nat
    const keyBlock: Bytes
    var nextTx: nat
    var nextRx: nat

    /** The numbers are used up: encrypting another record raises. */
    predicate Exhausted()
      reads this`nextTx
    {
      cipher == AES_CCM_8 && nextTx >= RECORD_LIMIT
    }

    constructor (c: int, e: nat, k: Bytes)
      ensures cipher == c && epoch == e && keyBlock == k && nextTx == 0 && nextRx == 0
    {
      cipher, epoch, keyBlock, nextTx, nextRx := c, e, k, 0, 0;
    }
  }

  class Record {
    var isSecure: bool
    var currentRead: SecurityParameters
    var currentWrite: SecurityParameters
    var pendingRead: SecurityParameters?
    var pendingWrite: SecurityParameters?

    ghost function Objects(): set<object>
      reads this
    {
      var current: set<object> := {this, currentRead, currentWrite};
      current + (if pendingRead == null then {} else {pendingRead}) + (if pendingWrite == null then {} else {pendingWrite})
    }

    /** Nothing negotiated: both directions use one null cipher of epoch 0. */
    predicate Clear()
      reads this
    {
      && !isSecure && currentRead == currentWrite && currentRead.cipher == NULL_SUITE && currentRead.epoch == 0
      && pendingRead == null && pendingWrite == null
    }

    constructor ()
      ensures Clear() && fresh(Objects())
    {
      var none := new SecurityParameters(NULL_SUITE, 0, []);
      isSecure, currentRead, currentWrite, pendingRead, pendingWrite := false, none, none, null, null;
    }

    method SecurityParametersClear()
      modifies this
      ensures Clear() && fresh(currentRead)
    {
      isSecure := false;
      var none := new SecurityParameters(NULL_SUITE, 0, []);
      currentRead := none;
      currentWrite := none;
      pendingRead := null;
      pendingWrite := null;
    }

    method PendingSecurityParametersSet(cipher: int, epoch: nat, keyBlock: Bytes) returns (exit: Exit)
      modifies this`pendingRead, this`pendingWrite
      ensures exit == if old(pendingRead == null && pendingWrite == null) then Normal else RuntimeError
      ensures if exit == Normal then
                && pendingRead != null && pendingRead == pendingWrite && fresh(pendingRead)
                && pendingRead.cipher == cipher && pendingRead.epoch == epoch && pendingRead.keyBlock == keyBlock
                && pendingRead.nextTx == 0 && pendingRead.nextRx == 0
              else pendingRead == old(pendingRead) && pendingWrite == old(pendingWrite)
    {
      var parameters := new SecurityParameters(cipher, epoch, keyBlock);
      if pendingRead != null {
        return RuntimeError;
      }
      if pendingWrite != null {
        return RuntimeError;
      }
      pendingRead := parameters;
      pendingWrite := parameters;
      exit := Normal;
    }

    method PendingWriteActivate() returns (exit: Exit)
      modifies this`currentWrite, this`pendingWrite
      ensures exit == if old(pendingWrite) != null then Normal else RuntimeError
      ensures pendingWrite == null && currentWrite == if exit == Normal then old(pendingWrite) else old(currentWrite)
    {
      if pendingWrite == null {
        return RuntimeError;
      }
      currentWrite := pendingWrite;
      pendingWrite := null;
      exit := Normal;
    }

    method PendingReadActivate() returns (exit: Exit)
      modifies this`currentRead, this`pendingRead
      ensures exit == if old(pendingRead) != null then Normal else RuntimeError
      ensures pendingRead == null && currentRead == if exit == Normal then old(pendingRead) else old(currentRead)
    {
      if pendingRead == null {
        return RuntimeError;
      }
      currentRead := pendingRead;
      pendingRead := null;
      exit := Normal;
    }

    /** A record goes out under the current write parameters, with their next number. */
    method Tx() returns (exit: Exit)
      modifies currentWrite`nextTx
      ensures currentWrite.nextTx == old(currentWrite.nextTx) + 1
      ensures exit == if old(currentWrite.Exhausted()) then RuntimeError else Normal
      ensures exit == RuntimeError <==> currentWrite.cipher == 0xC0AE && currentWrite.nextTx > 0x1_0000_0000_0000
    {
      exit := if currentWrite.Exhausted() then RuntimeError else Normal;
      currentWrite.nextTx := currentWrite.nextTx + 1;
    }
  }

  /** What a received record holds. */
  datatype Content =
    | Hs(kind: int, seqNo: int, whole: bool, bytes: Bytes, body: Bytes)
    | Ccs(data: Bytes)
    | Alert(closing: bool)
    | App(data: Bytes)
    | Other

  /** A received record; decrypted is its content under the current read parameters, if decryption succeeds. */
  datatype RecordIn = RecordIn(oddVersion: bool, epoch: int, seqNo: int, decrypted: Option<Content>)

  /** When a wait is over. */
  datatype Goal = CookieOrCertificate | CertificateTurn | Secure

  // ---------- What the client does, as a function ----------

  /** Where the client stands; its own record numbers are left out. */
  datatype Client = Client(
    hsState: HsState,
    txSeq: nat,
    rxSeq: nat,
    ephemeralKey: Option<Bytes>,
    serverCookie: Option<Bytes>,
    serverRandom: Option<Bytes>,
    extendedMaster: bool,
    serverKey: Option<Bytes>,
    serverEphemeral: Option<Bytes>,
    master: Option<Bytes>,
    log: seq<Event>,
    app: bool,
    secure: bool,
    readEpoch: nat,
    readNext: nat,
    pendingNext: nat)

  /** After a handshake message of the server that is awaited and that the checks on its body accept. */
  function Turn(c: Crypto, v: Client, kind: int, body: Bytes): Option<Client>
  {
    match v.hsState
    case WaitHelloVerify =>
      if kind == 3 && c.helloVerify(body).Accept? then
        Some(v.(hsState := SendHelloCookie, serverCookie := Some(c.helloVerify(body).value)))
      else Greets(c, v, kind, body)
    case WaitServerHello => Greets(c, v, kind, body)
    case WaitCertificate =>
      if kind == 11 && c.certificate(body).Accept? then
        Some(v.(hsState := WaitKeyExchange, serverKey := Some(c.certificate(body).value)))
      else None
    case WaitKeyExchange =>
      if kind == 12 && v.serverKey.Some? && v.serverRandom.Some?
         && c.keyExchange(v.serverKey.value, v.serverRandom.value, body).Accept? then
        Some(v.(hsState := WaitCertRequest,
                serverEphemeral := Some(c.keyExchange(v.serverKey.value, v.serverRandom.value, body).value)))
      else None
    case WaitCertRequest =>
      if kind == 13 && c.certRequest(body).Accept? then Some(v.(hsState := WaitHelloDone)) else None
    case WaitHelloDone => if kind == 14 && body == [] then Some(v.(hsState := SendCertificate)) else None
    case WaitFinished =>
      if kind == 20 && v.master.Some? && FinishedIs(c, v.master.value, "server finished", v.log, body) then
        Some(v.(hsState := Idle, secure := true))
      else None
    case _ => None
  }

  /** The message is not awaited, or a check on its body fails: the client refuses it with an alert. */
  predicate Denied(c: Crypto, v: Client, kind: int, body: Bytes)
  {
    if kind == 2 then (v.hsState != WaitServerHello && v.hsState != WaitHelloVerify) || c.serverHello(body).Refuse?
    else if kind == 3 then v.hsState != WaitHelloVerify || c.helloVerify(body).Refuse?
    else if kind == 11 then v.hsState != WaitCertificate || c.certificate(body).Refuse?
    else if kind == 12 then
      || v.hsState != WaitKeyExchange
      || (v.serverRandom.Some? && v.serverKey.Some? && c.keyExchange(v.serverKey.value, v.serverRandom.value, body).Refuse?)
    else if kind == 13 then v.hsState != WaitCertRequest || c.certRequest(body).Refuse?
    else if kind == 14 then v.hsState != WaitHelloDone || body != []
    else kind == 20 && v.hsState != WaitFinished
  }

  /** The message is awaited, and reading its body raises something that do_handshake does not catch. */
  predicate Breaks(c: Crypto, v: Client, kind: int, body: Bytes)
  {
    if kind == 2 then (v.hsState == WaitServerHello || v.hsState == WaitHelloVerify) && c.serverHello(body).Crash?
    else if kind == 3 then v.hsState == WaitHelloVerify && c.helloVerify(body).Crash?
    else if kind == 11 then v.hsState == WaitCertificate && c.certificate(body).Crash?
    else if kind == 12 then
      && v.hsState == WaitKeyExchange
      && (v.serverRandom.None? || v.serverKey.None? || c.keyExchange(v.serverKey.value, v.serverRandom.value, body).Crash?)
    else kind == 13 && v.hsState == WaitCertRequest && c.certRequest(body).Crash?
  }

  lemma OtherNumber(c: Crypto, v: Client, n: nat, kind: int, body: Bytes)
    ensures Denied(c, v.(rxSeq := n), kind, body) == Denied(c, v, kind, body)
    ensures Breaks(c, v.(rxSeq := n), kind, body) == Breaks(c, v, kind, body)
  {
  }

  lemma HelloTurn(c: Crypto, v: Client, body: Bytes)
    ensures Turn(c, v, 2, body) ==
              if (v.hsState == WaitServerHello || v.hsState == WaitHelloVerify) && c.serverHello(body).Accept? then
                Some(v.(hsState := WaitCertificate, serverRandom := Some(c.serverHello(body).value.0),
                        extendedMaster := c.serverHello(body).value.1))
              else None
  {
    hide FinishedIs;
  }

  lemma KeyExchangeTurn(c: Crypto, v: Client, body: Bytes)
    ensures Turn(c, v, 12, body) ==
              if v.hsState == WaitKeyExchange && v.serverKey.Some? && v.serverRandom.Some?
                 && c.keyExchange(v.serverKey.value, v.serverRandom.value, body).Accept? then
                Some(v.(hsState := WaitCertRequest, serverEphemeral :=
                          Some(c.keyExchange(v.serverKey.value, v.serverRandom.value, body).value)))
              else None
  {
    hide FinishedIs;
  }

  lemma FinishedTurn(c: Crypto, v: Client, body: Bytes)
    ensures Turn(c, v, 20, body) ==
              if v.hsState == WaitFinished && v.master.Some? && FinishedIs(c, v.master.value, "server finished", v.log, body)
              then Some(v.(hsState := Idle, secure := true)) else None
  {
    hide FinishedIs;
  }

  lemma NoOtherTurn(c: Crypto, v: Client, kind: int, body: Bytes)
    ensures Turn(c, v, kind, body).Some? || Denied(c, v, kind, body) || Breaks(c, v, kind, body) ==>
              kind in {2, 3, 11, 12, 13, 14, 20}
  {
    hide FinishedIs;
  }

  /** After the ServerHello, which may come with or without a HelloVerifyRequest before it. */
  function Greets(c: Crypto, v: Client, kind: int, body: Bytes): Option<Client>
  {
    if kind == 2 && c.serverHello(body).Accept? then
      var hello := c.serverHello(body).value;
      Some(v.(hsState := WaitCertificate, serverRandom := Some(hello.0), extendedMaster := hello.1))
    else None
  }

  /** After a handshake message: whole and in order, taken, and then part of the transcript. */
  function Heard(c: Crypto, v: Client, kind: int, seqNo: int, whole: bool, bytes: Bytes, body: Bytes): Option<Client>
  {
    if seqNo != v.rxSeq || !whole then None else
      match Turn(c, v.(rxSeq := v.rxSeq + 1), kind, body)
      case None => None
      case Some(w) => Some(w.(log := w.log + [ReceivedHs(kind, bytes, body)]))
  }

  /** After the server's ChangeCipherSpec: what follows is of epoch 1. */
  function Changing(v: Client): Client
  {
    v.(hsState := WaitFinished, log := v.log + [ReceivedCcs], readEpoch := 1, readNext := v.pendingNext, pendingNext := 0)
  }

  function Opened(c: Crypto, v: Client, content: Content): Option<Client>
  {
    match content
    case Hs(kind, seqNo, whole, bytes, body) => Heard(c, v, kind, seqNo, whole, bytes, body)
    case Ccs(data) =>
      if v.hsState == WaitChangeCipher && data == [1] then Some(Changing(v)) else None
    case Alert(closing) => if closing then None else Some(v)
    case App(_) => if v.app then Some(v) else None
    case Other => Some(v)
  }

  /** After a record of the expected version, epoch and number. */
  function Step(c: Crypto, v: Client, r: RecordIn): Option<Client>
  {
    if r.oddVersion || r.epoch != v.readEpoch || r.seqNo != v.readNext || r.decrypted.None? then None
    else Opened(c, v.(readNext := v.readNext + 1), r.decrypted.value)
  }

  function Steps(c: Crypto, v: Client, batch: seq<RecordIn>): Option<Client>
    decreases |batch|
  {
    if batch == [] then Some(v) else
      match Step(c, v, batch[0])
      case None => None
      case Some(w) => Steps(c, w, batch[1..])
  }

  predicate At(goal: Goal, v: Client)
  {
    match goal
    case CookieOrCertificate => v.hsState == SendHelloCookie || v.hsState == SendCertificate
    case CertificateTurn => v.hsState == SendCertificate
    case Secure => v.secure
  }

  /** Polls until the goal, but no more than count of them; with the number of the next poll. */
  function Polls(c: Crypto, v: Client, goal: Goal, line: nat -> seq<RecordIn>, n: nat, count: nat): Option<(Client, nat)>
    decreases count
  {
    if count == 0 || At(goal, v) then Some((v, n)) else
      match Steps(c, v, line(n))
      case None => None
      case Some(w) => Polls(c, w, goal, line, n + 1, count - 1)
  }

  lemma PollsUnfold(c: Crypto, v: Client, goal: Goal, line: nat -> seq<RecordIn>, n: nat, count: nat)
    ensures count == 0 || At(goal, v) ==> Polls(c, v, goal, line, n, count) == Some((v, n))
    ensures count > 0 && !At(goal, v) ==>
              var w := Steps(c, v, line(n));
              Polls(c, v, goal, line, n, count) == if w.None? then None else Polls(c, w.value, goal, line, n + 1, count - 1)
  {
    hide Steps, At;
  }

  /** After sending one handshake message. */
  function Said(c: Crypto, v: Client, kind: int, body: Bytes): Client
  {
    v.(txSeq := v.txSeq + 1, log := v.log + [SentHs(kind, c.wrap(kind, v.txSeq, body), body)])
  }

  function Greeted(c: Crypto, random: Bytes, v: Client, cookie: Bytes): Client
  {
    Said(c, v, 1, c.clientHello(random, cookie)).(
      hsState := if v.hsState == SendHelloNoCookie then WaitHelloVerify else WaitServerHello)
  }

  function Certified(c: Crypto, v: Client): Client
  {
    Said(c, v, 11, c.clientCertificate).(hsState := SendKeyExchange)
  }

  function Exchanged(c: Crypto, v: Client): Client
    requires v.ephemeralKey.Some?
  {
    Said(c, v, 16, v.ephemeralKey.value).(hsState := CalcMaster)
  }

  /** The master secret, from both ephemeral keys and the randoms or the transcript. */
  function Secret(c: Crypto, random: Bytes, key: Bytes, ephemeral: Bytes, serverRandom: Bytes, extended: bool,
                  transcript: Bytes): Bytes
  {
    var pre := c.dh(key, ephemeral);
    if extended then c.prf(pre, "extended master secret", c.sha(transcript))
    else c.prf(pre, "master secret", random + serverRandom)
  }

  predicate HasKeys(v: Client) { v.ephemeralKey.Some? && v.serverEphemeral.Some? && v.serverRandom.Some? }

  function Derived(c: Crypto, random: Bytes, v: Client): Client
    requires HasKeys(v)
  {
    var m := Secret(c, random, v.ephemeralKey.value, v.serverEphemeral.value, v.serverRandom.value, v.extendedMaster,
                    Transcript(v.log));
    v.(hsState := CalcParams, master := Some(m), ephemeralKey := None, serverEphemeral := None, log := v.log + [Keys(m)])
  }

  function Prepared(v: Client): Client { v.(hsState := SendCertVerify, pendingNext := 0) }

  function Verified(c: Crypto, v: Client): Client
  {
    Said(c, v, 15, c.sign(Transcript(v.log))).(hsState := SendChangeCipher)
  }

  function Switched(v: Client): Client { v.(hsState := SendFinished, log := v.log + [SentCcs]) }

  function Closed(c: Crypto, v: Client): Client
    requires v.master.Some?
  {
    Said(c, v, 20, c.prf(v.master.value, "client finished", c.sha(Transcript(v.log)))).(hsState := WaitChangeCipher)
  }

  /** After the client's second flight, which needs the keys. */
  function Flight(c: Crypto, random: Bytes, v: Client): Client
    requires HasKeys(v)
  {
    Closed(c, Switched(Verified(c, Prepared(Derived(c, random, Exchanged(c, Certified(c, v)))))))
  }

  /** After the first ClientHello and, if the server asks for it, the second one. */
  function Greeting(c: Crypto, random: Bytes, v: Client, line: nat -> seq<RecordIn>): Option<(Client, nat)>
  {
    match Polls(c, Greeted(c, random, v.(hsState := SendHelloNoCookie), []), CookieOrCertificate, line, 0, 20)
    case None => None
    case Some((w, n)) => if w.hsState == SendHelloCookie then GreetAgain(c, random, w, line, n) else Some((w, n))
  }

  function GreetAgain(c: Crypto, random: Bytes, v: Client, line: nat -> seq<RecordIn>, n: nat): Option<(Client, nat)>
  {
    if v.serverCookie.None? || |v.serverCookie.value| >= 256 then None
    else Polls(c, Greeted(c, random, v, v.serverCookie.value), CertificateTurn, line, n, 20)
  }

  function Answering(c: Crypto, random: Bytes, v: Client, line: nat -> seq<RecordIn>, n: nat): Option<Client>
  {
    if v.hsState != SendCertificate then Some(v)
    else if !HasKeys(v) then None
    else
      match Polls(c, Flight(c, random, v), Secure, line, n, 20)
      case None => None
      case Some((w, _)) => Some(w)
  }

  /** After a handshake in which nothing raises. */
  function Course(c: Crypto, random: Bytes, v: Client, line: nat -> seq<RecordIn>): Option<Client>
  {
    if (v.hsState != Idle && v.hsState != Failed) || |random| != 32 then None else
      match Greeting(c, random, v, line)
      case None => None
      case Some((w, n)) => Answering(c, random, w, line, n)
  }

  // ---------- A server that answers ----------

  datatype Message = Message(bytes: Bytes, body: Bytes)

  /** What a server says in one handshake, and how many polls it takes until each of its answers has come. */
  datatype Server = Server(
    verify: Option<Message>,
    hello: Message,
    certificate: Message,
    keyExchange: Message,
    certRequest: Message,
    helloDone: Message,
    finished: Message,
    verifyPolls: nat,
    helloPolls: nat,
    finishPolls: nat)

  function FromServer(epoch: nat, number: nat, kind: int, seqNo: nat, m: Message): RecordIn
  {
    RecordIn(false, epoch, number, Some(Hs(kind, seqNo, true, m.bytes, m.body)))
  }

  /** From the ServerHello to the ServerHelloDone. */
  function HelloFlight(s: Server, number: nat, seqNo: nat): seq<RecordIn>
  {
    [FromServer(0, number, 2, seqNo, s.hello), FromServer(0, number + 1, 11, seqNo + 1, s.certificate),
     FromServer(0, number + 2, 12, seqNo + 2, s.keyExchange), FromServer(0, number + 3, 13, seqNo + 3, s.certRequest),
     FromServer(0, number + 4, 14, seqNo + 4, s.helloDone)]
  }

  /** The ChangeCipherSpec, and under the new parameters the Finished. */
  function FinishFlight(s: Server, number: nat, seqNo: nat): seq<RecordIn>
  {
    [RecordIn(false, 0, number, Some(Ccs([1]))), FromServer(1, 0, 20, seqNo, s.finished)]
  }

  function Joined(line: nat -> seq<RecordIn>, start: nat, n: nat): seq<RecordIn>
    decreases n
  {
    if n == 0 then [] else line(start) + Joined(line, start + 1, n - 1)
  }

  /** The flight is in after exactly n polls, at most twenty of them, cut up in any way. */
  predicate Brings(line: nat -> seq<RecordIn>, start: nat, n: nat, flight: seq<RecordIn>)
  {
    1 <= n <= 20 && Joined(line, start, n) == flight && line(start + n - 1) != []
  }

  /** The client's checks accept what the server says before its Finished. */
  predicate Accepted(c: Crypto, s: Server)
  {
    && (s.verify.Some? ==>
          c.helloVerify(s.verify.value.body).Accept? && |c.helloVerify(s.verify.value.body).value| < 256)
    && c.serverHello(s.hello.body).Accept?
    && c.certificate(s.certificate.body).Accept?
    && c.keyExchange(c.certificate(s.certificate.body).value, c.serverHello(s.hello.body).value.0, s.keyExchange.body).Accept?
    && c.certRequest(s.certRequest.body).Accept?
    && s.helloDone.body == []
  }

  /** The transcript from the last ClientHello to the ServerHelloDone, when the first ClientHello has number t. */
  function Spoken(c: Crypto, random: Bytes, t: nat, s: Server): Bytes
    requires Accepted(c, s)
  {
    var hello := if s.verify.None? then c.wrap(1, t, c.clientHello(random, []))
                 else c.wrap(1, t + 1, c.clientHello(random, c.helloVerify(s.verify.value.body).value));
    hello + s.hello.bytes + s.certificate.bytes + s.keyExchange.bytes + s.certRequest.bytes + s.helloDone.bytes
  }

  /** The number of the client's certificate message. */
  function FlightNumber(t: nat, s: Server): nat { if s.verify.None? then t + 1 else t + 2 }

  function Shared(c: Crypto, random: Bytes, key: Bytes, t: nat, s: Server): Bytes
    requires Accepted(c, s)
  {
    var n := FlightNumber(t, s);
    Spoken(c, random, t, s) + c.wrap(11, n, c.clientCertificate) + c.wrap(16, n + 1, key)
  }

  /** The master secret of the exchange, from the keys and the messages alone. */
  function MasterOf(c: Crypto, random: Bytes, key: Bytes, t: nat, s: Server): Bytes
    requires Accepted(c, s)
  {
    var hello := c.serverHello(s.hello.body).value;
    var pre := c.dh(key, c.keyExchange(c.certificate(s.certificate.body).value, hello.0, s.keyExchange.body).value);
    if hello.1 then c.prf(pre, "extended master secret", c.sha(Shared(c, random, key, t, s)))
    else c.prf(pre, "master secret", random + hello.0)
  }

  function Proved(c: Crypto, random: Bytes, key: Bytes, t: nat, s: Server): Bytes
    requires Accepted(c, s)
  {
    var shared := Shared(c, random, key, t, s);
    shared + c.wrap(15, FlightNumber(t, s) + 2, c.sign(shared))
  }

  function ClientFinished(c: Crypto, random: Bytes, key: Bytes, t: nat, s: Server): Bytes
    requires Accepted(c, s)
  {
    c.prf(MasterOf(c, random, key, t, s), "client finished", c.sha(Proved(c, random, key, t, s)))
  }

  /** What the server's Finished has to be: the transcript now includes the client's. */
  function ServerFinished(c: Crypto, random: Bytes, key: Bytes, t: nat, s: Server): Bytes
    requires Accepted(c, s)
  {
    var whole := Proved(c, random, key, t, s) + c.wrap(20, FlightNumber(t, s) + 3, ClientFinished(c, random, key, t, s));
    c.prf(MasterOf(c, random, key, t, s), "server finished", c.sha(whole))
  }

  /** A client that can start: not connected, and with an ephemeral key. */
  predicate Ready(random: Bytes, v: Client)
  {
    && (v.hsState == Idle || v.hsState == Failed) && !v.secure && v.readEpoch == 0
    && v.ephemeralKey.Some? && |random| == 32
  }

  /**
   The server answers: its records have the numbers that come next, its messages too, the client's checks accept
   them, and its Finished is right.
   */
  predicate Answers(c: Crypto, random: Bytes, v: Client, s: Server, line: nat -> seq<RecordIn>)
  {
    && Accepted(c, s) && v.ephemeralKey.Some?
    && s.finished.body == ServerFinished(c, random, v.ephemeralKey.value, v.txSeq, s)
    && if s.verify.None? then
         && Brings(line, 0, s.helloPolls, HelloFlight(s, v.readNext, v.rxSeq))
         && Brings(line, s.helloPolls, s.finishPolls, FinishFlight(s, v.readNext + 5, v.rxSeq + 5))
       else
         && Brings(line, 0, s.verifyPolls, [FromServer(0, v.readNext, 3, v.rxSeq, s.verify.value)])
         && Brings(line, s.verifyPolls, s.helloPolls, HelloFlight(s, v.readNext + 1, v.rxSeq + 1))
         && Brings(line, s.verifyPolls + s.helloPolls, s.finishPolls, FinishFlight(s, v.readNext + 6, v.rxSeq + 6))
  }

  function Hear(kind: int, m: Message): Event { ReceivedHs(kind, m.bytes, m.body) }

  /** The events of the whole handshake, in order. */
  function Events(c: Crypto, random: Bytes, key: Bytes, t: nat, s: Server): seq<Event>
    requires Accepted(c, s)
  {
    Opening(c, random, t, s) + ServerSays(s) + ClientSays(c, random, key, t, s) + [ReceivedCcs, Hear(20, s.finished)]
  }

  function Say(c: Crypto, kind: int, n: nat, body: Bytes): Event { SentHs(kind, c.wrap(kind, n, body), body) }

  function Opening(c: Crypto, random: Bytes, t: nat, s: Server): seq<Event>
    requires Accepted(c, s)
  {
    [Say(c, 1, t, c.clientHello(random, []))] +
    if s.verify.None? then []
    else [Hear(3, s.verify.value), Say(c, 1, t + 1, c.clientHello(random, c.helloVerify(s.verify.value.body).value))]
  }

  function ServerSays(s: Server): seq<Event>
  {
    [Hear(2, s.hello), Hear(11, s.certificate), Hear(12, s.keyExchange), Hear(13, s.certRequest), Hear(14, s.helloDone)]
  }

  function ClientSays(c: Crypto, random: Bytes, key: Bytes, t: nat, s: Server): seq<Event>
    requires Accepted(c, s)
  {
    var n := FlightNumber(t, s);
    [Say(c, 11, n, c.clientCertificate), Say(c, 16, n + 1, key), Keys(MasterOf(c, random, key, t, s)),
     Say(c, 15, n + 2, c.sign(Shared(c, random, key, t, s))), SentCcs,
     Say(c, 20, n + 3, ClientFinished(c, random, key, t, s))]
  }

  // ---------- Polls bring a flight ----------

  /** Each record of the flight is accepted, and the goal is met with the last one. */
  predicate Arrives(c: Crypto, v: Client, goal: Goal, flight: seq<RecordIn>)
    decreases |flight|
  {
    if flight == [] then At(goal, v)
    else
      && !At(goal, v) && Step(c, v, flight[0]).Some?
      && Arrives(c, Step(c, v, flight[0]).value, goal, flight[1..])
  }

  lemma {:induction false} ArrivesSplit(c: Crypto, v: Client, goal: Goal, a: seq<RecordIn>, b: seq<RecordIn>)
    requires Arrives(c, v, goal, a + b) && b != []
    ensures !At(goal, v) && Steps(c, v, a).Some? && Arrives(c, Steps(c, v, a).value, goal, b)
    ensures Steps(c, v, a + b) == Steps(c, Steps(c, v, a).value, b)
    decreases |a|
  {
    hide Step, At;
    if a == [] {
      assert a + b == b;
    } else {
      assert (a + b)[1..] == a[1..] + b;
      ArrivesSplit(c, Step(c, v, a[0]).value, goal, a[1..], b);
    }
  }

  lemma {:induction false} ArrivesEnds(c: Crypto, v: Client, goal: Goal, flight: seq<RecordIn>)
    requires Arrives(c, v, goal, flight)
    ensures Steps(c, v, flight).Some? && At(goal, Steps(c, v, flight).value)
    decreases |flight|
  {
    hide Step, At;
    if flight != [] {
      ArrivesEnds(c, Step(c, v, flight[0]).value, goal, flight[1..]);
    }
  }

  lemma {:induction false} JoinedLast(line: nat -> seq<RecordIn>, start: nat, n: nat)
    requires n > 0 && line(start + n - 1) != []
    ensures Joined(line, start, n) != []
    decreases n
  {
    if n > 1 {
      JoinedLast(line, start + 1, n - 1);
    }
  }

  /** However the flight is cut up, the polls go on until it is in, and stop then. */
  lemma {:induction false} PollsBring(c: Crypto, v: Client, goal: Goal, line: nat -> seq<RecordIn>, start: nat, n: nat,
                                      count: nat, flight: seq<RecordIn>)
    requires 1 <= n <= count && Joined(line, start, n) == flight && line(start + n - 1) != []
    requires Arrives(c, v, goal, flight)
    ensures Steps(c, v, flight).Some?
    ensures Polls(c, v, goal, line, start, count) == Some((Steps(c, v, flight).value, start + n))
    decreases n
  {
    hide Step, At, Arrives, Steps;
    JoinedLast(line, start, n);
    ArrivesEnds(c, v, goal, flight);
    ArrivesSplit(c, v, goal, [], flight) by { assert [] + flight == flight; }
    if n == 1 {
      assert Joined(line, start + 1, 0) == [];
      assert flight == line(start);
    } else {
      var rest := Joined(line, start + 1, n - 1);
      JoinedLast(line, start + 1, n - 1);
      ArrivesSplit(c, v, goal, line(start), rest);
      PollsBring(c, Steps(c, v, line(start)).value, goal, line, start + 1, n - 1, count - 1, rest);
    }
  }

  // ---------- An answered handshake ends secure ----------

  lemma HearStep(c: Crypto, v: Client, kind: int, m: Message)
    requires v.readEpoch == 0 || v.readEpoch == 1
    ensures Step(c, v, FromServer(v.readEpoch, v.readNext, kind, v.rxSeq, m)) ==
              var w := Turn(c, v.(readNext := v.readNext + 1, rxSeq := v.rxSeq + 1), kind, m.body);
              if w.None? then None else Some(w.value.(log := w.value.log + [Hear(kind, m)]))
  {
    hide Turn;
  }

  lemma ArrivesFirst(c: Crypto, v: Client, goal: Goal, r: RecordIn, w: Client, rest: seq<RecordIn>)
    requires !At(goal, v) && Step(c, v, r) == Some(w) && Arrives(c, w, goal, rest)
    ensures Arrives(c, v, goal, [r] + rest) && Steps(c, v, [r] + rest) == Steps(c, w, rest)
  {
    hide Step, At;
    assert ([r] + rest)[1..] == rest;
  }

  /** The HelloVerifyRequest alone. */
  lemma VerifyStage(c: Crypto, v: Client, m: Message)
    requires v.hsState == WaitHelloVerify && v.readEpoch == 0 && c.helloVerify(m.body).Accept?
    ensures var flight := [FromServer(0, v.readNext, 3, v.rxSeq, m)];
            && Arrives(c, v, CookieOrCertificate, flight)
            && Steps(c, v, flight) ==
               Some(v.(hsState := SendHelloCookie, serverCookie := Some(c.helloVerify(m.body).value), rxSeq := v.rxSeq + 1,
                       readNext := v.readNext + 1, log := v.log + [Hear(3, m)]))
  {
    hide Step, Steps, Arrives, Turn;
    HearVerify(c, v, m);
    var r := FromServer(0, v.readNext, 3, v.rxSeq, m);
    var w := Step(c, v, r).value;
    AtGoal(c, w, CookieOrCertificate);
    ArrivesFirst(c, v, CookieOrCertificate, r, w, []);
    assert [r] + [] == [r];
  }

  lemma HearVerify(c: Crypto, v: Client, m: Message)
    requires v.hsState == WaitHelloVerify && v.readEpoch == 0 && c.helloVerify(m.body).Accept?
    ensures Step(c, v, FromServer(0, v.readNext, 3, v.rxSeq, m)) ==
              Some(Counted(v, 3, m).(hsState := SendHelloCookie, serverCookie := Some(c.helloVerify(m.body).value)))
  {
    HearStep(c, v, 3, m);
    hide Step;
  }

  /** What the client has once the server's flight is in. */
  function Informed(c: Crypto, v: Client, s: Server): Client
    requires Accepted(c, s)
  {
    var hello, key := c.serverHello(s.hello.body).value, c.certificate(s.certificate.body).value;
    v.(hsState := SendCertificate, serverRandom := Some(hello.0), extendedMaster := hello.1, serverKey := Some(key),
       serverEphemeral := Some(c.keyExchange(key, hello.0, s.keyExchange.body).value),
       rxSeq := v.rxSeq + 5, readNext := v.readNext + 5, log := v.log + ServerSays(s))
  }

  function Counted(v: Client, kind: int, m: Message): Client
  {
    v.(rxSeq := v.rxSeq + 1, readNext := v.readNext + 1, log := v.log + [Hear(kind, m)])
  }

  lemma HearHello(c: Crypto, v: Client, m: Message)
    requires v.hsState == WaitHelloVerify || v.hsState == WaitServerHello
    requires v.readEpoch == 0 && c.serverHello(m.body).Accept?
    ensures Step(c, v, FromServer(0, v.readNext, 2, v.rxSeq, m)) ==
              Some(Counted(v, 2, m).(hsState := WaitCertificate, serverRandom := Some(c.serverHello(m.body).value.0),
                                     extendedMaster := c.serverHello(m.body).value.1))
  {
    HearStep(c, v, 2, m);
    HelloTurn(c, v.(readNext := v.readNext + 1, rxSeq := v.rxSeq + 1), m.body);
    hide Turn, Step;
  }

  lemma HearCertificate(c: Crypto, v: Client, m: Message)
    requires v.hsState == WaitCertificate && v.readEpoch == 0 && c.certificate(m.body).Accept?
    ensures Step(c, v, FromServer(0, v.readNext, 11, v.rxSeq, m)) ==
              Some(Counted(v, 11, m).(hsState := WaitKeyExchange, serverKey := Some(c.certificate(m.body).value)))
  {
    HearStep(c, v, 11, m);
    hide Step;
  }

  lemma HearKeyExchange(c: Crypto, v: Client, m: Message)
    requires v.hsState == WaitKeyExchange && v.readEpoch == 0 && v.serverKey.Some? && v.serverRandom.Some?
    requires c.keyExchange(v.serverKey.value, v.serverRandom.value, m.body).Accept?
    ensures Step(c, v, FromServer(0, v.readNext, 12, v.rxSeq, m)) ==
              Some(Counted(v, 12, m).(hsState := WaitCertRequest, serverEphemeral :=
                     Some(c.keyExchange(v.serverKey.value, v.serverRandom.value, m.body).value)))
  {
    HearStep(c, v, 12, m);
    KeyExchangeTurn(c, v.(readNext := v.readNext + 1, rxSeq := v.rxSeq + 1), m.body);
    hide Turn, Step;
  }

  lemma HearCertRequest(c: Crypto, v: Client, m: Message)
    requires v.hsState == WaitCertRequest && v.readEpoch == 0 && c.certRequest(m.body).Accept?
    ensures Step(c, v, FromServer(0, v.readNext, 13, v.rxSeq, m)) == Some(Counted(v, 13, m).(hsState := WaitHelloDone))
  {
    HearStep(c, v, 13, m);
    hide Step;
  }

  lemma HearHelloDone(c: Crypto, v: Client, m: Message)
    requires v.hsState == WaitHelloDone && v.readEpoch == 0 && m.body == []
    ensures Step(c, v, FromServer(0, v.readNext, 14, v.rxSeq, m)) == Some(Counted(v, 14, m).(hsState := SendCertificate))
  {
    HearStep(c, v, 14, m);
    hide Step;
  }

  predicate Waiting(goal: Goal, v: Client)
  {
    (v.hsState == WaitHelloVerify && goal == CookieOrCertificate) || (v.hsState == WaitServerHello && goal == CertificateTurn)
  }

  lemma FiveMore(log: seq<Event>, a: Event, b: Event, d: Event, e: Event, f: Event)
    ensures log + [a] + [b] + [d] + [e] + [f] == log + [a, b, d, e, f]
  {
  }

  lemma FirstThree(c: Crypto, v: Client, s: Server) returns (v1: Client, v2: Client, v3: Client)
    requires (v.hsState == WaitHelloVerify || v.hsState == WaitServerHello) && v.readEpoch == 0 && Accepted(c, s)
    ensures var flight := HelloFlight(s, v.readNext, v.rxSeq);
            Step(c, v, flight[0]) == Some(v1) && Step(c, v1, flight[1]) == Some(v2) && Step(c, v2, flight[2]) == Some(v3)
    ensures v1.hsState == WaitCertificate && v2.hsState == WaitKeyExchange
    ensures var hello, key := c.serverHello(s.hello.body).value, c.certificate(s.certificate.body).value;
            v3 == v.(hsState := WaitCertRequest, serverRandom := Some(hello.0), extendedMaster := hello.1, serverKey := Some(key),
                     serverEphemeral := Some(c.keyExchange(key, hello.0, s.keyExchange.body).value),
                     rxSeq := v.rxSeq + 3, readNext := v.readNext + 3,
                     log := v.log + [Hear(2, s.hello)] + [Hear(11, s.certificate)] + [Hear(12, s.keyExchange)])
  {
    hide Step, Turn, Hear, FromServer;
    HearHello(c, v, s.hello);
    v1 := Step(c, v, FromServer(0, v.readNext, 2, v.rxSeq, s.hello)).value;
    HearCertificate(c, v1, s.certificate);
    v2 := Step(c, v1, FromServer(0, v1.readNext, 11, v1.rxSeq, s.certificate)).value;
    HearKeyExchange(c, v2, s.keyExchange);
    v3 := Step(c, v2, FromServer(0, v2.readNext, 12, v2.rxSeq, s.keyExchange)).value;
  }

  lemma LastTwo(c: Crypto, v: Client, s: Server) returns (v4: Client, v5: Client)
    requires v.hsState == WaitCertRequest && v.readEpoch == 0 && Accepted(c, s)
    ensures Step(c, v, FromServer(0, v.readNext, 13, v.rxSeq, s.certRequest)) == Some(v4)
    ensures Step(c, v4, FromServer(0, v.readNext + 1, 14, v.rxSeq + 1, s.helloDone)) == Some(v5) && v4.hsState == WaitHelloDone
    ensures v5 == v.(hsState := SendCertificate, rxSeq := v.rxSeq + 2, readNext := v.readNext + 2,
                     log := v.log + [Hear(13, s.certRequest)] + [Hear(14, s.helloDone)])
  {
    hide Step, Turn, Hear, FromServer;
    HearCertRequest(c, v, s.certRequest);
    v4 := Step(c, v, FromServer(0, v.readNext, 13, v.rxSeq, s.certRequest)).value;
    HearHelloDone(c, v4, s.helloDone);
    v5 := Step(c, v4, FromServer(0, v4.readNext, 14, v4.rxSeq, s.helloDone)).value;
  }

  /** The server's first flight, with or without a HelloVerifyRequest before it. */
  lemma HelloStage(c: Crypto, v: Client, goal: Goal, s: Server)
    requires Waiting(goal, v) && v.readEpoch == 0 && Accepted(c, s)
    ensures Arrives(c, v, goal, HelloFlight(s, v.readNext, v.rxSeq))
    ensures Steps(c, v, HelloFlight(s, v.readNext, v.rxSeq)) == Some(Informed(c, v, s))
  {
    hide Step, Steps, Arrives, Accepted, HelloFlight, Informed;
    var v1, v2, v3, v4 := AllFive(c, v, s);
    ArrivesFive(c, v, v1, v2, v3, v4, Informed(c, v, s), goal, HelloFlight(s, v.readNext, v.rxSeq));
  }

  lemma AllFive(c: Crypto, v: Client, s: Server) returns (v1: Client, v2: Client, v3: Client, v4: Client)
    requires (v.hsState == WaitHelloVerify || v.hsState == WaitServerHello) && v.readEpoch == 0 && Accepted(c, s)
    ensures var flight := HelloFlight(s, v.readNext, v.rxSeq);
            && |flight| == 5
            && Step(c, v, flight[0]) == Some(v1) && Step(c, v1, flight[1]) == Some(v2) && Step(c, v2, flight[2]) == Some(v3)
            && Step(c, v3, flight[3]) == Some(v4) && Step(c, v4, flight[4]) == Some(Informed(c, v, s))
    ensures v1.hsState == WaitCertificate && v2.hsState == WaitKeyExchange && v3.hsState == WaitCertRequest
    ensures v4.hsState == WaitHelloDone && Informed(c, v, s).hsState == SendCertificate
  {
    hide Step, Hear, Accepted, FromServer;
    v1, v2, v3 := FirstThree(c, v, s);
    var v5;
    v4, v5 := LastTwo(c, v3, s);
    FiveMore(v.log, Hear(2, s.hello), Hear(11, s.certificate), Hear(12, s.keyExchange), Hear(13, s.certRequest),
             Hear(14, s.helloDone));
    assert v5 == Informed(c, v, s);
  }

  lemma ArrivesFive(c: Crypto, v: Client, v1: Client, v2: Client, v3: Client, v4: Client, v5: Client, goal: Goal,
                    flight: seq<RecordIn>)
    requires |flight| == 5 && At(goal, v5)
    requires !At(goal, v) && !At(goal, v1) && !At(goal, v2) && !At(goal, v3) && !At(goal, v4)
    requires Step(c, v, flight[0]) == Some(v1) && Step(c, v1, flight[1]) == Some(v2) && Step(c, v2, flight[2]) == Some(v3)
    requires Step(c, v3, flight[3]) == Some(v4) && Step(c, v4, flight[4]) == Some(v5)
    ensures Arrives(c, v, goal, flight) && Steps(c, v, flight) == Some(v5)
  {
    hide Step, At;
    assert [flight[4]] + [] == flight[4..];
    ArrivesFirst(c, v4, goal, flight[4], v5, []);
    assert [flight[3]] + flight[4..] == flight[3..];
    ArrivesFirst(c, v3, goal, flight[3], v4, flight[4..]);
    assert [flight[2]] + flight[3..] == flight[2..];
    ArrivesFirst(c, v2, goal, flight[2], v3, flight[3..]);
    assert [flight[1]] + flight[2..] == flight[1..];
    ArrivesFirst(c, v1, goal, flight[1], v2, flight[2..]);
    assert [flight[0]] + flight[1..] == flight;
    ArrivesFirst(c, v, goal, flight[0], v1, flight[1..]);
  }

  lemma Transcribed(log: seq<Event>, e: Event)
    ensures Transcript(log + [e]) ==
              if e.SentHs? && e.kind == 1 then e.bytes
              else if e.SentHs? || e.ReceivedHs? then Transcript(log) + e.bytes else Transcript(log)
  {
    assert (log + [e])[..|log|] == log;
  }

  /** A client that knows what the server has said, with the transcript so far. */
  predicate Knows(c: Crypto, random: Bytes, key: Bytes, t: nat, s: Server, v: Client)
    requires Accepted(c, s)
  {
    var hello := c.serverHello(s.hello.body).value;
    && v.ephemeralKey == Some(key) && v.serverRandom == Some(hello.0) && v.extendedMaster == hello.1
    && v.serverEphemeral ==
       Some(c.keyExchange(c.certificate(s.certificate.body).value, hello.0, s.keyExchange.body).value)
    && v.txSeq == FlightNumber(t, s) && Transcript(v.log) == Spoken(c, random, t, s)
  }

  /** The certificate, the key exchange and the derivation. */
  lemma KeysStage(c: Crypto, random: Bytes, key: Bytes, t: nat, s: Server, v: Client)
    requires Accepted(c, s) && Knows(c, random, key, t, s, v)
    ensures HasKeys(v) && v.txSeq == FlightNumber(t, s)
    ensures var w := Exchanged(c, Certified(c, v));
            && HasKeys(w)
            && Transcript(Derived(c, random, w).log) == Shared(c, random, key, t, s)
            && Derived(c, random, w) ==
               v.(hsState := CalcParams, txSeq := v.txSeq + 2, master := Some(MasterOf(c, random, key, t, s)),
                  ephemeralKey := None, serverEphemeral := None,
                  log := v.log + [Say(c, 11, v.txSeq, c.clientCertificate)] + [Say(c, 16, v.txSeq + 1, key)]
                         + [Keys(MasterOf(c, random, key, t, s))])
  {
    hide Accepted, Transcript, Spoken;
    Transcribed(v.log, Say(c, 11, v.txSeq, c.clientCertificate));
    Transcribed(v.log + [Say(c, 11, v.txSeq, c.clientCertificate)], Say(c, 16, v.txSeq + 1, key));
    Transcribed(Exchanged(c, Certified(c, v)).log, Keys(MasterOf(c, random, key, t, s)));
  }

  /** From the derivation to the client's Finished. */
  lemma CloseStage(c: Crypto, m: Bytes, v: Client)
    requires v.master == Some(m)
    ensures var shared := Transcript(v.log);
            var proof := c.sign(shared);
            var proved := shared + c.wrap(15, v.txSeq, proof);
            var fin := c.prf(m, "client finished", c.sha(proved));
            var w := Closed(c, Switched(Verified(c, Prepared(v))));
            && w == v.(hsState := WaitChangeCipher, txSeq := v.txSeq + 2, pendingNext := 0,
                       log := v.log + [Say(c, 15, v.txSeq, proof)] + [SentCcs] + [Say(c, 20, v.txSeq + 1, fin)])
            && Transcript(w.log) == proved + c.wrap(20, v.txSeq + 1, fin)
  {
    hide Transcript;
    var proof := c.sign(Transcript(v.log));
    Transcribed(v.log, Say(c, 15, v.txSeq, proof));
    var log1 := v.log + [Say(c, 15, v.txSeq, proof)];
    Transcribed(log1, SentCcs);
    var fin := c.prf(m, "client finished", c.sha(Transcript(log1)));
    Transcribed(log1 + [SentCcs], Say(c, 20, v.txSeq + 1, fin));
  }

  lemma SixMore(log: seq<Event>, a: Event, b: Event, d: Event, e: Event, f: Event, g: Event)
    ensures log + [a] + [b] + [d] + [e] + [f] + [g] == log + [a, b, d, e, f, g]
  {
  }

  /** The client's second flight: its master secret, its Finished and its transcript are those of the exchange. */
  lemma FlightStage(c: Crypto, random: Bytes, key: Bytes, t: nat, s: Server, v: Client)
    requires Accepted(c, s) && Knows(c, random, key, t, s, v)
    ensures HasKeys(v)
    ensures Flight(c, random, v) ==
              v.(hsState := WaitChangeCipher, txSeq := v.txSeq + 4, master := Some(MasterOf(c, random, key, t, s)),
                 ephemeralKey := None, serverEphemeral := None, pendingNext := 0,
                 log := v.log + ClientSays(c, random, key, t, s))
    ensures ServerFinished(c, random, key, t, s) ==
              c.prf(MasterOf(c, random, key, t, s), "server finished", c.sha(Transcript(Flight(c, random, v).log)))
  {
    hide Accepted, Transcript, Spoken, Shared, MasterOf, Knows, Derived, Verified, Closed, Switched, Prepared, Say;
    KeysStage(c, random, key, t, s, v);
    var w := Exchanged(c, Certified(c, v));
    var d := Derived(c, random, w);
    var m := MasterOf(c, random, key, t, s);
    CloseStage(c, m, d);
    var n := v.txSeq;
    SixMore(v.log, Say(c, 11, n, c.clientCertificate), Say(c, 16, n + 1, key), Keys(m),
            Say(c, 15, n + 2, c.sign(Shared(c, random, key, t, s))), SentCcs,
            Say(c, 20, n + 3, ClientFinished(c, random, key, t, s)));
  }

  /** The server's last flight. */
  lemma FinishStage(c: Crypto, v: Client, s: Server)
    requires v.hsState == WaitChangeCipher && v.master.Some? && v.pendingNext == 0 && v.readEpoch == 0 && !v.secure
    requires s.finished.body == c.prf(v.master.value, "server finished", c.sha(Transcript(v.log)))
    ensures Arrives(c, v, Secure, FinishFlight(s, v.readNext, v.rxSeq))
    ensures Steps(c, v, FinishFlight(s, v.readNext, v.rxSeq)) ==
              Some(v.(hsState := Idle, secure := true, rxSeq := v.rxSeq + 1, readEpoch := 1, readNext := 1,
                      log := v.log + [ReceivedCcs] + [Hear(20, s.finished)]))
  {
    hide Transcript, Turn, Arrives, Steps;
    var flight := FinishFlight(s, v.readNext, v.rxSeq);
    var v1 := v.(hsState := WaitFinished, log := v.log + [ReceivedCcs], readEpoch := 1, readNext := 0);
    assert Step(c, v, flight[0]) == Some(v1);
    Transcribed(v.log, ReceivedCcs);
    HearStep(c, v1, 20, s.finished);
    FinishedTurn(c, v1.(readNext := 1, rxSeq := v.rxSeq + 1), s.finished.body);
    var v2 := Step(c, v1, flight[1]).value;
    hide Step;
    assert [flight[1]] + [] == flight[1..];
    AtGoal(c, v2, Secure);
    ArrivesFirst(c, v1, Secure, flight[1], v2, []);
    assert [flight[0]] + flight[1..] == flight;
    ArrivesFirst(c, v, Secure, flight[0], v1, flight[1..]);
  }

  lemma AtGoal(c: Crypto, v: Client, goal: Goal)
    requires At(goal, v)
    ensures Arrives(c, v, goal, []) && Steps(c, v, []) == Some(v)
  {
  }

  lemma SaysTranscribed(log: seq<Event>, s: Server)
    ensures Transcript(log + ServerSays(s)) ==
              Transcript(log) + s.hello.bytes + s.certificate.bytes + s.keyExchange.bytes + s.certRequest.bytes + s.helloDone.bytes
  {
    hide Transcript;
    var l1 := log + [Hear(2, s.hello)];
    var l2 := l1 + [Hear(11, s.certificate)];
    var l3 := l2 + [Hear(12, s.keyExchange)];
    var l4 := l3 + [Hear(13, s.certRequest)];
    Transcribed(log, Hear(2, s.hello));
    Transcribed(l1, Hear(11, s.certificate));
    Transcribed(l2, Hear(12, s.keyExchange));
    Transcribed(l3, Hear(13, s.certRequest));
    Transcribed(l4, Hear(14, s.helloDone));
    FiveMore(log, Hear(2, s.hello), Hear(11, s.certificate), Hear(12, s.keyExchange), Hear(13, s.certRequest),
             Hear(14, s.helloDone));
  }

  /** After a ClientHello and the server's first flight, in epoch 0. */
  predicate Told(c: Crypto, random: Bytes, v: Client, s: Server, extra: nat, w: Client)
    requires Accepted(c, s) && v.ephemeralKey.Some?
  {
    && w.hsState == SendCertificate && Knows(c, random, v.ephemeralKey.value, v.txSeq, s, w)
    && !w.secure && w.readEpoch == 0 && w.rxSeq == v.rxSeq + extra && w.readNext == v.readNext + extra
    && w.log == v.log + Opening(c, random, v.txSeq, s) + ServerSays(s)
  }

  /** After the first ClientHello. */
  function Hello(c: Crypto, random: Bytes, v: Client): Client
  {
    Greeted(c, random, v.(hsState := SendHelloNoCookie), [])
  }

  /** After the HelloVerifyRequest. */
  function Asked(c: Crypto, random: Bytes, v: Client, m: Message): Client
    requires c.helloVerify(m.body).Accept?
  {
    var g := Hello(c, random, v);
    g.(hsState := SendHelloCookie, serverCookie := Some(c.helloVerify(m.body).value), rxSeq := v.rxSeq + 1,
       readNext := v.readNext + 1, log := g.log + [Hear(3, m)])
  }

  /** After the second ClientHello. */
  function HelloAgain(c: Crypto, random: Bytes, v: Client, m: Message): Client
    requires c.helloVerify(m.body).Accept?
  {
    Greeted(c, random, Asked(c, random, v, m), c.helloVerify(m.body).value)
  }

  lemma DirectPolls(c: Crypto, random: Bytes, v: Client, s: Server, line: nat -> seq<RecordIn>)
    requires Ready(random, v) && Answers(c, random, v, s, line) && s.verify.None?
    ensures Greeting(c, random, v, line) == Some((Informed(c, Hello(c, random, v), s), s.helloPolls))
  {
    hide Accepted, HelloFlight, ServerSays, Arrives, Steps, Polls, Joined, ServerFinished;
    var g := Hello(c, random, v);
    assert Waiting(CookieOrCertificate, g) && g.readNext == v.readNext && g.rxSeq == v.rxSeq;
    HelloStage(c, g, CookieOrCertificate, s);
    PollsBring(c, g, CookieOrCertificate, line, 0, s.helloPolls, 20, HelloFlight(s, v.readNext, v.rxSeq));
  }

  lemma DirectTold(c: Crypto, random: Bytes, v: Client, s: Server)
    requires Ready(random, v) && Accepted(c, s) && s.verify.None?
    ensures Told(c, random, v, s, 5, Informed(c, Hello(c, random, v), s))
  {
    hide Accepted, Transcript, ServerSays;
    Transcribed(v.log, Say(c, 1, v.txSeq, c.clientHello(random, [])));
    SaysTranscribed(Hello(c, random, v).log, s);
  }

  lemma VerifyPolls(c: Crypto, random: Bytes, v: Client, s: Server, line: nat -> seq<RecordIn>)
    requires Ready(random, v) && Answers(c, random, v, s, line) && s.verify.Some?
    ensures Greeting(c, random, v, line) == GreetAgain(c, random, Asked(c, random, v, s.verify.value), line, s.verifyPolls)
  {
    hide HelloFlight, Arrives, Steps, Polls, Joined, ServerFinished, GreetAgain, FinishFlight;
    var g, m := Hello(c, random, v), s.verify.value;
    VerifyStage(c, g, m);
    PollsBring(c, g, CookieOrCertificate, line, 0, s.verifyPolls, 20, [FromServer(0, v.readNext, 3, v.rxSeq, m)]);
  }

  lemma AgainPolls(c: Crypto, random: Bytes, v: Client, s: Server, line: nat -> seq<RecordIn>)
    requires Ready(random, v) && Answers(c, random, v, s, line) && s.verify.Some?
    ensures GreetAgain(c, random, Asked(c, random, v, s.verify.value), line, s.verifyPolls) ==
              Some((Informed(c, HelloAgain(c, random, v, s.verify.value), s), s.verifyPolls + s.helloPolls))
  {
    hide HelloFlight, ServerSays, Arrives, Steps, Polls, Joined, ServerFinished, FinishFlight;
    var k := HelloAgain(c, random, v, s.verify.value);
    HelloStage(c, k, CertificateTurn, s);
    PollsBring(c, k, CertificateTurn, line, s.verifyPolls, s.helloPolls, 20, HelloFlight(s, v.readNext + 1, v.rxSeq + 1));
  }

  lemma AgainTold(c: Crypto, random: Bytes, v: Client, s: Server)
    requires Ready(random, v) && Accepted(c, s) && s.verify.Some?
    ensures Told(c, random, v, s, 6, Informed(c, HelloAgain(c, random, v, s.verify.value), s))
  {
    hide Transcript, ServerSays;
    var m := s.verify.value;
    Transcribed(Asked(c, random, v, m).log, Say(c, 1, v.txSeq + 1, c.clientHello(random, c.helloVerify(m.body).value)));
    SaysTranscribed(HelloAgain(c, random, v, m).log, s);
  }

  /** Connected, over the master secret of the exchange, and after exactly these events. */
  predicate Connected(c: Crypto, random: Bytes, v: Client, s: Server, w: Client)
    requires Accepted(c, s) && v.ephemeralKey.Some?
  {
    && w.hsState == Idle && w.secure && w.readEpoch == 1
    && w.master == Some(MasterOf(c, random, v.ephemeralKey.value, v.txSeq, s))
    && w.log == v.log + Events(c, random, v.ephemeralKey.value, v.txSeq, s)
  }

  lemma EndStage(c: Crypto, random: Bytes, v: Client, s: Server, line: nat -> seq<RecordIn>, extra: nat, w: Client, n: nat)
    requires Accepted(c, s) && v.ephemeralKey.Some? && Told(c, random, v, s, extra, w)
    requires s.finished.body == ServerFinished(c, random, v.ephemeralKey.value, v.txSeq, s)
    requires Brings(line, n, s.finishPolls, FinishFlight(s, v.readNext + extra, v.rxSeq + extra))
    ensures var r := Answering(c, random, w, line, n); r.Some? && Connected(c, random, v, s, r.value)
  {
    hide Accepted, Transcript, FinishFlight, Arrives, Steps, Polls, Joined, Flight, Knows, ServerFinished, MasterOf, Opening,
         ServerSays, ClientSays, Hear;
    var key := v.ephemeralKey.value;
    FlightStage(c, random, key, v.txSeq, s, w);
    var f := Flight(c, random, w);
    FinishStage(c, f, s);
    PollsBring(c, f, Secure, line, n, s.finishPolls, 20, FinishFlight(s, f.readNext, f.rxSeq));
    LogsAdd(v.log, Opening(c, random, v.txSeq, s), ServerSays(s), ClientSays(c, random, key, v.txSeq, s), ReceivedCcs, Hear(20, s.finished));
  }

  lemma LogsAdd(log: seq<Event>, a: seq<Event>, b: seq<Event>, d: seq<Event>, e: Event, f: Event)
    ensures log + a + b + d + [e] + [f] == log + (a + b + d + [e, f])
  {
  }

  /**
   An answered handshake ends secure, with or without a HelloVerifyRequest, wherever the numbers stand and however
   the server's flights are cut up into polls.
   */
  lemma AnsweredIsSecure(c: Crypto, random: Bytes, v: Client, s: Server, line: nat -> seq<RecordIn>)
    requires Ready(random, v) && Answers(c, random, v, s, line)
    ensures var r := Course(c, random, v, line); r.Some? && Connected(c, random, v, s, r.value)
  {
    hide FinishFlight, HelloFlight, Greeting, GreetAgain, Answering, ServerFinished, Connected, Informed, Told, Hello,
         HelloAgain, Asked, Joined;
    if s.verify.None? {
      DirectPolls(c, random, v, s, line);
      DirectTold(c, random, v, s);
      EndStage(c, random, v, s, line, 5, Informed(c, Hello(c, random, v), s), s.helloPolls);
    } else {
      VerifyPolls(c, random, v, s, line);
      AgainPolls(c, random, v, s, line);
      AgainTold(c, random, v, s);
      EndStage(c, random, v, s, line, 6, Informed(c, HelloAgain(c, random, v, s.verify.value), s), s.verifyPolls + s.helloPolls);
    }
  }

  /** Every such server can be heard: here without a HelloVerifyRequest, each flight in one poll. */
  lemma SomeLineAnswers(c: Crypto, random: Bytes, v: Client, s: Server) returns (line: nat -> seq<RecordIn>)
    requires Ready(random, v) && Accepted(c, s) && s.verify.None? && s.helloPolls == 1 && s.finishPolls == 1
    requires s.finished.body == ServerFinished(c, random, v.ephemeralKey.value, v.txSeq, s)
    ensures Answers(c, random, v, s, line)
  {
    hide Accepted, ServerFinished;
    line := n => if n == 0 then HelloFlight(s, v.readNext, v.rxSeq) else FinishFlight(s, v.readNext + 5, v.rxSeq + 5);
    assert Joined(line, 0, 1) == line(0) + Joined(line, 1, 0) == line(0);
    assert Joined(line, 1, 1) == line(1) + Joined(line, 2, 0) == line(1);
  }

  lemma AllAnswered(c: Crypto, random: Bytes, v: Client, line: nat -> seq<RecordIn>)
    ensures forall s :: Ready(random, v) && Answers(c, random, v, s, line) ==>
              var r := Course(c, random, v, line); r.Some? && r.value.secure && Connected(c, random, v, s, r.value)
  {
    hide Course, Accepted;
    forall s | Ready(random, v) && Answers(c, random, v, s, line)
      ensures var r := Course(c, random, v, line); r.Some? && r.value.secure && Connected(c, random, v, s, r.value)
    {
      AnsweredIsSecure(c, random, v, s, line);
    }
  }

  // ---------- The handshake ----------

  class Handshake {
    const c: Crypto
    const record: Record
    var hsState: HsState
    var txSeq: nat
    var rxSeq: nat
    const clientRandom: Bytes
    var ephemeralKey: Option<Bytes>
    var serverCookie: Option<Bytes>
    var serverRandom: Option<Bytes>
    var extendedMaster: bool
    var serverKey: Option<Bytes>
    var serverEphemeral: Option<Bytes>
    var master: Option<Bytes>
    var hashInput: Bytes
    var hsData: Bytes
    var appHandler: bool
    var delivered: seq<Bytes>
    ghost var log: seq<Event>

    /** One derivation uses the ephemeral key up, and nothing makes another. */
    ghost predicate KeyUse()
      reads this`log, this`ephemeralKey
    {
      Derivations(log) == if ephemeralKey.Some? then 0 else 1
    }

    /** The running hash and the kept data are both the transcript, and no data has gone out too early. */
    ghost predicate Core()
      reads this`hashInput, this`hsData, this`log, this`ephemeralKey
    {
      hashInput == hsData == Transcript(log) && AppsSafe(c, log) && KeyUse()
    }

    /** A step that does not get into the state of the key exchange, nor fails there. */
    ghost predicate Away(exit: Exit, before: HsState)
      reads this`hsState
    {
      exit != NoKey && (hsState == SendKeyExchange ==> before == SendKeyExchange)
    }

    /** How far the events must have got in each state. */
    ghost predicate StageFits()
      reads this`hsState, this`log, this`master, record`isSecure
    {
      var st := StageOf(c, log);
      match hsState
      case CalcParams | SendCertVerify | SendChangeCipher | SendFinished => master.Some? && st == Keyed(master.value)
      case WaitChangeCipher => master.Some? && st == SentFin(master.value)
      case WaitFinished => master.Some? && st == Changed(master.value)
      case Idle => record.isSecure ==> st.Done?
      case _ => true
    }

    /** The key block that belongs to the master secret. */
    ghost function KeyBlock(): Bytes
      reads this`master, this`serverRandom
    {
      if master.Some? && serverRandom.Some? then c.prf(master.value, "key expansion", serverRandom.value + clientRandom) else []
    }

    /** Which parameters each state uses, and that only a finished handshake is secure. */
    ghost predicate ParametersFit()
      reads this`hsState, this`master, this`serverRandom, record
    {
      match hsState
      case Idle => record.Clear() || (record.isSecure && Agreed())
      case SendCertVerify | SendChangeCipher => Negotiated() && record.currentWrite == record.currentRead
      case SendFinished | WaitChangeCipher =>
        && !record.isSecure && record.pendingWrite == null && record.pendingRead == record.currentWrite
        && record.currentRead.epoch == 0 && record.currentRead.cipher == NULL_SUITE
        && record.currentWrite.epoch == 1 && record.currentWrite.cipher == AES_CCM_8
        && record.currentWrite.keyBlock == KeyBlock()
      case WaitFinished => !record.isSecure && Agreed()
      case _ => record.Clear()
    }

    ghost predicate Negotiated()
      reads this`master, this`serverRandom, record
    {
      && !record.isSecure && record.pendingRead != null && record.pendingRead == record.pendingWrite
      && record.pendingRead.epoch == 1 && record.pendingRead.cipher == AES_CCM_8
      && record.currentRead.epoch == 0 && record.currentRead.cipher == NULL_SUITE
      && record.pendingRead.keyBlock == KeyBlock()
    }

    /** Both directions use the one object that was negotiated, and nothing is pending. */
    ghost predicate Agreed()
      reads this`master, this`serverRandom, record
    {
      && record.currentRead == record.currentWrite && record.currentRead.epoch == 1 && record.currentRead.cipher == AES_CCM_8
      && record.pendingRead == null && record.pendingWrite == null && record.currentRead.keyBlock == KeyBlock()
    }

    ghost predicate Valid()
      reads this`hashInput, this`hsData, this`log, this`ephemeralKey, this`hsState, this`master, this`serverRandom, record
    {
      Core() && StageFits() && ParametersFit()
    }

    ghost function Now(): Client
      reads this, record, record.currentRead, record.pendingRead
    {
      Client(hsState, txSeq, rxSeq, ephemeralKey, serverCookie, serverRandom, extendedMaster, serverKey, serverEphemeral,
             master, log, appHandler, record.isSecure, record.currentRead.epoch, record.currentRead.nextRx,
             if record.pendingRead == null then 0 else record.pendingRead.nextRx)
    }

    constructor (crypto: Crypto, random: Bytes, key: Bytes, r: Record, hasApp: bool)
      requires r.Clear()
      ensures Valid() && record == r && !r.isSecure && log == [] && c == crypto && hsState == Idle
    {
      c, record, clientRandom, ephemeralKey, appHandler := crypto, r, random, Some(key), hasApp;
      hsState, txSeq, rxSeq := Idle, 0, 0;
      serverCookie, serverRandom, extendedMaster, serverKey, serverEphemeral, master := None, None, false, None, None, None;
      hashInput, hsData, delivered, log := [], [], [], [];
    }

    lemma Logged(e: Event)
      ensures Transcript(log + [e]) ==
                if e.SentHs? && e.kind == CLIENT_HELLO then e.bytes
                else if e.SentHs? || e.ReceivedHs? then Transcript(log) + e.bytes else Transcript(log)
      ensures AppsSafe(c, log) && (e.SentApp? ==> StageOf(c, log).Done?) ==> AppsSafe(c, log + [e])
      ensures Derivations(log + [e]) == Derivations(log) + if e.Keys? then 1 else 0
    {
      assert (log + [e])[..|log|] == log;
      assert forall i :: 0 <= i < |log| ==> (log + [e])[..i] == log[..i];
    }

    lemma StageLogged(e: Event)
      ensures var s, t := StageOf(c, log), StageOf(c, log + [e]);
              match e
              case SentHs(kind, _, body) =>
                t == if kind == CLIENT_HELLO then Open
                     else if kind == FINISHED && s.Keyed? && FinishedIs(c, s.master, "client finished", log, body)
                     then SentFin(s.master)
                     else s
              case Keys(m) => t == Keyed(m)
              case ReceivedCcs => t == if s.SentFin? then Changed(s.master) else s
              case ReceivedHs(kind, _, body) =>
                t == if kind == FINISHED && s.Changed? && FinishedIs(c, s.master, "server finished", log, body)
                     then Done(s.master) else s
              case _ => t == s
    {
      assert (log + [e])[..|log|] == log;
    }

    /** hs_check: on failure a fatal alert goes out, the state is FAILED unless sending raises, and the source raises. */
    method HsCheck(condition: bool) returns (exit: Exit)
      modifies this`hsState, record.currentWrite`nextTx
      ensures exit == if condition then Normal else RuntimeError
      ensures hsState == if condition || old(record.currentWrite.Exhausted()) then old(hsState) else Failed
      ensures record.currentWrite.nextTx == old(record.currentWrite.nextTx) + if condition then 0 else 1
      ensures condition ==> Now() == old(Now()) && (old(Valid()) ==> Valid())
    {
      hide Core, StageFits, ParametersFit;
      if condition {
        return Normal;
      }
      exit := record.Tx();
      if exit == Normal {
        hsState := Failed;
      }
      exit := RuntimeError;
    }

    /** hs_send: the message enters hash and data, and goes out. */
    method HsSend(kind: int, body: Bytes) returns (exit: Exit)
      requires if kind == CLIENT_HELLO then hashInput == hsData == [] && AppsSafe(c, log) && KeyUse() else Core()
      modifies this`txSeq, this`hashInput, this`hsData, this`log, record.currentWrite`nextTx
      ensures exit == if old(record.currentWrite.Exhausted()) then RuntimeError else Normal
      ensures log == old(log) + [SentHs(kind, c.wrap(kind, old(txSeq), body), body)] && txSeq == old(txSeq) + 1
      ensures Now() == Said(c, old(Now()), kind, body)
      ensures Core()
    {
      hide StageOf, Derivations, KeyUse, Core;
      Enter(kind, body);
      exit := record.Tx();
    }

    method Enter(kind: int, body: Bytes)
      requires if kind == CLIENT_HELLO then hashInput == hsData == [] && AppsSafe(c, log) && KeyUse() else Core()
      modifies this`txSeq, this`hashInput, this`hsData, this`log
      ensures Core() && Now() == Said(c, old(Now()), kind, body)
    {
      hide StageOf, Derivations, Transcript, AppsSafe;
      var message := c.wrap(kind, txSeq, body);
      assert [] + message == message;
      txSeq := txSeq + 1;
      hashInput := hashInput + message;
      hsData := hsData + message;
      Logged(SentHs(kind, message, body));
      log := log + [SentHs(kind, message, body)];
    }

    method StartTranscript(body: Bytes) returns (exit: Exit)
      requires Core()
      modifies this`txSeq, this`hashInput, this`hsData, this`log, record.currentWrite`nextTx
      ensures Core() && exit == if old(record.currentWrite.Exhausted()) then RuntimeError else Normal
      ensures old(log) <= log && Sent(CLIENT_HELLO, body, old(log), old(txSeq))
      ensures Now() == Said(c, old(Now()), CLIENT_HELLO, body)
    {
      hashInput, hsData := [], [];
      exit := HsSend(CLIENT_HELLO, body);
    }

    method SendClientHello(cookie: Bytes) returns (exit: Exit)
      requires Valid()
      modifies this`hsState, this`txSeq, this`hashInput, this`hsData, this`log, record.currentWrite`nextTx
      ensures Core() && (exit == Normal ==> Valid() && |cookie| < 256)
      ensures old(log) <= log && (exit == Normal || exit == RuntimeError)
      ensures hsState == SendKeyExchange ==> old(hsState) == SendKeyExchange
      ensures exit == Normal ==> Sent(CLIENT_HELLO, c.clientHello(clientRandom, cookie), old(log), old(txSeq))
      ensures exit == Normal ==> hsState == if old(hsState) == SendHelloNoCookie then WaitHelloVerify else WaitServerHello
      ensures (old(hsState) == SendHelloNoCookie || old(hsState) == SendHelloCookie) && |clientRandom| == 32 && |cookie| < 256
              ==> exit == Normal && Now() == Greeted(c, clientRandom, old(Now()), cookie)
    {
      hide StageOf, Core, Sent;
      exit := HsCheck(hsState == SendHelloNoCookie || hsState == SendHelloCookie);
      if exit != Normal {
        return;
      }
      if |clientRandom| != 32 || |cookie| >= 256 {
        return RuntimeError;
      }
      exit := StartTranscript(c.clientHello(clientRandom, cookie));
      if exit != Normal {
        return;
      }
      if hsState == SendHelloNoCookie {
        hsState := WaitHelloVerify;
      } else {
        hsState := WaitServerHello;
      }
    }

    /** One handshake message has been added to the events since then, with the next number. */
    ghost predicate Sent(kind: int, body: Bytes, before: seq<Event>, seqNo: nat)
      reads this`log, this`txSeq
    {
      log == before + [SentHs(kind, c.wrap(kind, seqNo, body), body)] && txSeq == seqNo + 1
    }

    /** An alert has gone out, the handshake has failed unless sending raised, and the source raises. */
    twostate predicate Refused(exit: Exit)
      reads this`hsState, record, record.currentWrite
    {
      && exit == RuntimeError && hsState == (if old(record.currentWrite.Exhausted()) then old(hsState) else Failed)
      && record.currentWrite == old(record.currentWrite)
      && record.currentWrite.nextTx == old(record.currentWrite.nextTx) + 1
    }

    /** The expected outcome, if there is one, is what has come about. */
    ghost predicate Follows(exit: Exit, expected: Option<Client>)
      reads this, record, record.currentRead, record.pendingRead
    {
      expected.Some? ==> exit == Normal && expected == Some(Now())
    }

    lemma NowIs()
      ensures var v := Now();
              && v.hsState == hsState && v.serverRandom == serverRandom && v.serverKey == serverKey && v.master == master
              && v.log == log && v.rxSeq == rxSeq && v.app == appHandler
              && v.readEpoch == record.currentRead.epoch && v.readNext == record.currentRead.nextRx
    {
    }

    /** A state in which nothing is negotiated and no events are owed. */
    predicate Plain(s: HsState)
    {
      s in {SendHelloNoCookie, WaitHelloVerify, SendHelloCookie, WaitServerHello, WaitCertificate, WaitKeyExchange,
            WaitCertRequest, WaitHelloDone, SendCertificate}
    }

    method Advance(next: HsState)
      requires Valid() && Plain(hsState) && Plain(next)
      modifies this`hsState
      ensures ParametersFit() && StageFits() && Now() == old(Now()).(hsState := next) && hsState == next
    {
      hide Core, StageOf, Agreed, Negotiated, KeyBlock;
      hsState := next;
    }

    method TakeCookie(cookie: Bytes)
      requires Valid() && hsState == WaitHelloVerify
      modifies this`hsState, this`serverCookie
      ensures ParametersFit() && StageFits()
      ensures Now() == old(Now()).(hsState := SendHelloCookie, serverCookie := Some(cookie))
      ensures hsState == SendHelloCookie && serverCookie == Some(cookie)
    {
      hide Core, StageOf, Agreed, Negotiated, KeyBlock;
      serverCookie := Some(cookie);
      hsState := SendHelloCookie;
    }

    method TakeHello(random: Bytes, extended: bool)
      requires Valid() && (hsState == WaitServerHello || hsState == WaitHelloVerify)
      modifies this`hsState, this`serverRandom, this`extendedMaster
      ensures ParametersFit() && StageFits()
      ensures Now() == old(Now()).(hsState := WaitCertificate, serverRandom := Some(random), extendedMaster := extended)
      ensures hsState == WaitCertificate && serverRandom == Some(random) && extendedMaster == extended
    {
      hide Core, StageOf, Agreed, Negotiated, KeyBlock;
      serverRandom := Some(random);
      extendedMaster := extended;
      hsState := WaitCertificate;
    }

    method TakeKey(key: Bytes)
      requires Valid() && hsState == WaitCertificate
      modifies this`hsState, this`serverKey
      ensures ParametersFit() && StageFits()
      ensures Now() == old(Now()).(hsState := WaitKeyExchange, serverKey := Some(key))
      ensures hsState == WaitKeyExchange && serverKey == Some(key)
    {
      hide Core, StageOf, Agreed, Negotiated, KeyBlock;
      serverKey := Some(key);
      hsState := WaitKeyExchange;
    }

    method TakeEphemeral(key: Bytes)
      requires Valid() && hsState == WaitKeyExchange
      modifies this`hsState, this`serverEphemeral
      ensures ParametersFit() && StageFits()
      ensures Now() == old(Now()).(hsState := WaitCertRequest, serverEphemeral := Some(key))
      ensures hsState == WaitCertRequest && serverEphemeral == Some(key)
    {
      hide Core, StageOf, Agreed, Negotiated, KeyBlock;
      serverEphemeral := Some(key);
      hsState := WaitCertRequest;
    }

    method ProcessHelloVerify(body: Bytes) returns (exit: Exit)
      requires Valid()
      modifies this`hsState, this`serverCookie, record.currentWrite`nextTx
      ensures Away(exit, old(hsState))
      ensures exit == Normal ==> ParametersFit() && StageFits() && hsState == SendHelloCookie && old(hsState) == WaitHelloVerify
      ensures exit == Normal ==> serverCookie.Some? && c.helloVerify(body) == Accept(serverCookie.value)
      ensures old(hsState) == WaitHelloVerify && c.helloVerify(body).Accept? ==>
                && exit == Normal
                && Now() == old(Now()).(hsState := SendHelloCookie, serverCookie := Some(c.helloVerify(body).value))
      ensures Follows(exit, Turn(c, old(Now()), 3, body))
      ensures Denied(c, old(Now()), 3, body) ==> Refused(exit)
      ensures Breaks(c, old(Now()), 3, body) ==> exit == OtherError && Now() == old(Now())
    {
      hide Now, Valid, ParametersFit, StageFits, FinishedIs;
      NowIs();
      exit := HsCheck(hsState == WaitHelloVerify);
      if exit != Normal {
        return;
      }
      match c.helloVerify(body)
      case Accept(cookie) =>
        TakeCookie(cookie);
      case Refuse => exit := HsCheck(false);
      case Crash => exit := OtherError;
    }

    method ProcessServerHello(body: Bytes) returns (exit: Exit)
      requires Valid()
      modifies this`hsState, this`serverRandom, this`extendedMaster, record.currentWrite`nextTx
      ensures Away(exit, old(hsState))
      ensures exit == Normal ==> ParametersFit() && StageFits() && hsState == WaitCertificate
      ensures exit == Normal ==> old(hsState) == WaitServerHello || old(hsState) == WaitHelloVerify
      ensures exit == Normal ==> serverRandom.Some? && c.serverHello(body) == Accept((serverRandom.value, extendedMaster))
      ensures (old(hsState) == WaitServerHello || old(hsState) == WaitHelloVerify) && c.serverHello(body).Accept? ==>
                && exit == Normal
                && Now() == old(Now()).(hsState := WaitCertificate, serverRandom := Some(c.serverHello(body).value.0),
                                        extendedMaster := c.serverHello(body).value.1)
      ensures Follows(exit, Turn(c, old(Now()), 2, body))
      ensures Denied(c, old(Now()), 2, body) ==> Refused(exit)
      ensures Breaks(c, old(Now()), 2, body) ==> exit == OtherError && Now() == old(Now())
    {
      hide Now, Valid, ParametersFit, StageFits, FinishedIs, Turn;
      NowIs();
      HelloTurn(c, Now(), body);
      exit := HsCheck(hsState == WaitServerHello || hsState == WaitHelloVerify);
      if exit != Normal {
        return;
      }
      match c.serverHello(body)
      case Accept(hello) =>
        TakeHello(hello.0, hello.1);
      case Refuse => exit := HsCheck(false);
      case Crash => exit := OtherError;
    }

    method ProcessCertificate(body: Bytes) returns (exit: Exit)
      requires Valid()
      modifies this`hsState, this`serverKey, record.currentWrite`nextTx
      ensures Away(exit, old(hsState))
      ensures exit == Normal ==> ParametersFit() && StageFits() && hsState == WaitKeyExchange && old(hsState) == WaitCertificate
      ensures exit == Normal ==> serverKey.Some? && c.certificate(body) == Accept(serverKey.value)
      ensures old(hsState) == WaitCertificate && c.certificate(body).Accept? ==>
                && exit == Normal
                && Now() == old(Now()).(hsState := WaitKeyExchange, serverKey := Some(c.certificate(body).value))
      ensures Follows(exit, Turn(c, old(Now()), 11, body))
      ensures Denied(c, old(Now()), 11, body) ==> Refused(exit)
      ensures Breaks(c, old(Now()), 11, body) ==> exit == OtherError && Now() == old(Now())
    {
      hide Now, Valid, ParametersFit, StageFits, FinishedIs;
      NowIs();
      exit := HsCheck(hsState == WaitCertificate);
      if exit != Normal {
        return;
      }
      match c.certificate(body)
      case Accept(key) =>
        TakeKey(key);
      case Refuse => exit := HsCheck(false);
      case Crash => exit := OtherError;
    }

    method ProcessKeyExchange(body: Bytes) returns (exit: Exit)
      requires Valid()
      modifies this`hsState, this`serverEphemeral, record.currentWrite`nextTx
      ensures Away(exit, old(hsState))
      ensures exit == Normal ==> ParametersFit() && StageFits() && hsState == WaitCertRequest && old(hsState) == WaitKeyExchange
      ensures exit == Normal ==> serverKey.Some? && serverRandom.Some? && serverEphemeral.Some?
                                 && c.keyExchange(serverKey.value, serverRandom.value, body) == Accept(serverEphemeral.value)
      ensures old(hsState) == WaitKeyExchange && serverKey.Some? && serverRandom.Some?
              && c.keyExchange(serverKey.value, serverRandom.value, body).Accept? ==>
                && exit == Normal
                && Now() == old(Now()).(hsState := WaitCertRequest, serverEphemeral :=
                                          Some(c.keyExchange(serverKey.value, serverRandom.value, body).value))
      ensures Follows(exit, Turn(c, old(Now()), 12, body))
      ensures Denied(c, old(Now()), 12, body) ==> Refused(exit)
      ensures Breaks(c, old(Now()), 12, body) ==> exit == OtherError && Now() == old(Now())
    {
      hide Now, Valid, ParametersFit, StageFits, FinishedIs, Turn;
      NowIs();
      KeyExchangeTurn(c, Now(), body);
      exit := HsCheck(hsState == WaitKeyExchange);
      if exit != Normal {
        return;
      }
      if serverRandom.None? || serverKey.None? {
        return OtherError;
      }
      match c.keyExchange(serverKey.value, serverRandom.value, body)
      case Accept(key) =>
        TakeEphemeral(key);
      case Refuse => exit := HsCheck(false);
      case Crash => exit := OtherError;
    }

    method ProcessCertRequest(body: Bytes) returns (exit: Exit)
      requires Valid()
      modifies this`hsState, record.currentWrite`nextTx
      ensures Away(exit, old(hsState))
      ensures exit == Normal ==> ParametersFit() && StageFits() && hsState == WaitHelloDone && old(hsState) == WaitCertRequest
      ensures exit == Normal ==> c.certRequest(body).Accept?
      ensures old(hsState) == WaitCertRequest && c.certRequest(body).Accept? ==>
                exit == Normal && Now() == old(Now()).(hsState := WaitHelloDone)
      ensures Follows(exit, Turn(c, old(Now()), 13, body))
      ensures Denied(c, old(Now()), 13, body) ==> Refused(exit)
      ensures Breaks(c, old(Now()), 13, body) ==> exit == OtherError && Now() == old(Now())
    {
      hide Now, Valid, ParametersFit, StageFits, FinishedIs;
      NowIs();
      exit := HsCheck(hsState == WaitCertRequest);
      if exit != Normal {
        return;
      }
      match c.certRequest(body)
      case Accept(_) => Advance(WaitHelloDone);
      case Refuse => exit := HsCheck(false);
      case Crash => exit := OtherError;
    }

    method ProcessHelloDone(body: Bytes) returns (exit: Exit)
      requires Valid()
      modifies this`hsState, record.currentWrite`nextTx
      ensures Away(exit, old(hsState))
      ensures exit == Normal ==> ParametersFit() && StageFits() && hsState == SendCertificate && old(hsState) == WaitHelloDone
      ensures exit == Normal ==> body == []
      ensures old(hsState) == WaitHelloDone && body == [] ==>
                exit == Normal && Now() == old(Now()).(hsState := SendCertificate)
      ensures Follows(exit, Turn(c, old(Now()), 14, body))
      ensures Denied(c, old(Now()), 14, body) ==> Refused(exit)
      ensures Breaks(c, old(Now()), 14, body) ==> exit == OtherError && Now() == old(Now())
    {
      hide Now, Valid, ParametersFit, StageFits, FinishedIs;
      NowIs();
      exit := HsCheck(hsState == WaitHelloDone);
      if exit != Normal {
        return;
      }
      exit := HsCheck(body == []);
      if exit != Normal {
        return;
      }
      Advance(SendCertificate);
    }

    lemma FinishedTest(master: Bytes, tag: string, body: Bytes)
      requires Core()
      ensures FinishedIs(c, master, tag, log, body) <==> body == c.prf(master, tag, c.sha(hashInput))
      ensures hashInput == Transcript(log)
    {
    }

    /** The server's Finished either matches the transcript and makes the connection secure, or clears everything. */
    method ProcessFinished(body: Bytes) returns (exit: Exit)
      requires Valid()
      modifies this`hsState, record, record.currentWrite`nextTx
      ensures fresh(record.Objects() - old(record.Objects()))
      ensures Away(exit, old(hsState))
      ensures exit == Normal ==> old(hsState) == WaitFinished && old(master).Some? && ParametersFit()
      ensures exit == Normal ==> if FinishedIs(c, old(master).value, "server finished", log, body)
                                 then hsState == Idle && record.isSecure else hsState == Failed
      ensures old(hsState) == WaitFinished && old(master).Some?
              && FinishedIs(c, old(master).value, "server finished", log, body) ==>
                exit == Normal && Now() == old(Now()).(hsState := Idle, secure := true)
      ensures Follows(exit, Turn(c, old(Now()), 20, body))
      ensures Denied(c, old(Now()), 20, body) ==> Refused(exit)
      ensures Breaks(c, old(Now()), 20, body) ==> exit == OtherError && Now() == old(Now())
    {
      hide StageOf, Core, FinishedIs, KeyBlock, Negotiated, Agreed, Turn;
      FinishedTurn(c, Now(), body);
      exit := HsCheck(hsState == WaitFinished);
      if exit != Normal {
        return;
      }
      exit := Conclude(body);
    }

    method Conclude(body: Bytes) returns (exit: Exit)
      requires Valid() && hsState == WaitFinished && master.Some?
      modifies this`hsState, record, record.currentWrite`nextTx
      ensures fresh(record.Objects() - old(record.Objects()))
      ensures Away(exit, old(hsState))
      ensures exit == Normal ==> ParametersFit()
      ensures exit == Normal ==> if FinishedIs(c, master.value, "server finished", log, body)
                                 then hsState == Idle && record.isSecure else hsState == Failed
      ensures FinishedIs(c, master.value, "server finished", log, body) ==>
                exit == Normal && Now() == old(Now()).(hsState := Idle, secure := true)
    {
      hide StageOf, Core, FinishedIs, KeyBlock, Negotiated, Agreed;
      exit := Normal;
      FinishedTest(master.value, "server finished", body);
      var expected := c.prf(master.value, "server finished", c.sha(hashInput));
      if body == expected {
        BecomeSecure();
      } else {
        exit := Reject();
      }
    }

    method BecomeSecure()
      requires Valid() && hsState == WaitFinished
      modifies this`hsState, record`isSecure
      ensures hsState == Idle && record.isSecure && ParametersFit() && record.Objects() == old(record.Objects())
      ensures Now() == old(Now()).(hsState := Idle, secure := true)
    {
      hide StageOf, Core, FinishedIs;
      record.isSecure := true;
      hsState := Idle;
    }

    /** A Finished that does not match: an alert, and everything cleared. */
    method Reject() returns (exit: Exit)
      modifies this`hsState, record, record.currentWrite`nextTx
      ensures fresh(record.Objects() - old(record.Objects()))
      ensures if exit == Normal then hsState == Failed && record.Clear() else exit == RuntimeError && hsState == old(hsState)
    {
      exit := record.Tx();
      if exit == Normal {
        record.SecurityParametersClear();
        hsState := Failed;
      }
    }

    lemma AwaitsFinished()
      requires Valid()
      ensures hsState == WaitFinished ==> master.Some? && StageOf(c, log) == Changed(master.value)
    {
      hide Core;
    }

    /** The case split over the message type. */
    method Process(kind: int, body: Bytes) returns (exit: Exit)
      requires Valid()
      modifies this, record, record.currentWrite`nextTx
      ensures log == old(log) && hashInput == old(hashInput) && hsData == old(hsData) && ephemeralKey == old(ephemeralKey)
      ensures rxSeq == old(rxSeq)
      ensures Away(exit, old(hsState))
      ensures fresh(record.Objects() - old(record.Objects()))
      ensures exit == Normal ==> MayJoin(kind, body)
      ensures delivered == old(delivered)
      ensures Follows(exit, Turn(c, old(Now()), kind, body))
      ensures Denied(c, old(Now()), kind, body) ==> Refused(exit)
      ensures Breaks(c, old(Now()), kind, body) ==> exit == OtherError && Now() == old(Now())
      ensures kind !in {2, 3, 11, 12, 13, 14, 20} ==> exit == RuntimeError && Now() == old(Now())
    {
      hide StageOf, AppsSafe, FinishedIs, Transcript, Derivations, ParametersFit, KeyUse, Turn, Now, Denied, Refused, Breaks,
           Valid, StageFits;
      if kind == SERVER_HELLO {
        exit := ProcessServerHello(body);
      } else if kind == HELLO_VERIFY_REQUEST {
        exit := ProcessHelloVerify(body);
      } else if kind == CERTIFICATE {
        exit := ProcessCertificate(body);
      } else if kind == SERVER_KEY_EXCHANGE {
        exit := ProcessKeyExchange(body);
      } else {
        exit := ProcessLater(kind, body);
      }
    }

    /** The types that come last in a handshake; any other raises. */
    method ProcessLater(kind: int, body: Bytes) returns (exit: Exit)
      requires Valid() && kind !in {2, 3, 11, 12}
      modifies this, record, record.currentWrite`nextTx
      ensures log == old(log) && hashInput == old(hashInput) && hsData == old(hsData) && ephemeralKey == old(ephemeralKey)
      ensures rxSeq == old(rxSeq)
      ensures Away(exit, old(hsState))
      ensures fresh(record.Objects() - old(record.Objects()))
      ensures exit == Normal ==> MayJoin(kind, body)
      ensures delivered == old(delivered)
      ensures Follows(exit, Turn(c, old(Now()), kind, body))
      ensures Denied(c, old(Now()), kind, body) ==> Refused(exit)
      ensures Breaks(c, old(Now()), kind, body) ==> exit == OtherError && Now() == old(Now())
      ensures kind !in {2, 3, 11, 12, 13, 14, 20} ==> exit == RuntimeError && Now() == old(Now())
    {
      hide StageOf, AppsSafe, FinishedIs, Transcript, Derivations, ParametersFit, KeyUse, Turn, Now, Denied, Refused, Breaks,
           Valid, StageFits;
      AwaitsFinished();
      NoOtherTurn(c, Now(), kind, body);
      if kind == CERTIFICATE_REQUEST {
        exit := ProcessCertRequest(body);
      } else if kind == SERVER_HELLO_DONE {
        exit := ProcessHelloDone(body);
      } else if kind == FINISHED {
        exit := ProcessFinished(body);
      } else {
        exit := RuntimeError;
      }
    }

    /** The state after a message has been processed, before it enters the transcript. */
    ghost predicate MayJoin(kind: int, body: Bytes)
      reads this`log, this`hsState, this`master, this`serverRandom, record
    {
      && ParametersFit()
      && if kind != FINISHED then StageFits() else
           hsState == Failed ||
           (hsState == Idle && StageOf(c, log).Changed? && FinishedIs(c, StageOf(c, log).master, "server finished", log, body))
    }

    ghost method Join(kind: int, bytes: Bytes, body: Bytes)
      requires MayJoin(kind, body) && AppsSafe(c, log) && KeyUse()
      requires hashInput == hsData == Transcript(log) + bytes
      modifies this`log
      ensures Valid() && log == old(log) + [ReceivedHs(kind, bytes, body)]
      ensures Now() == old(Now()).(log := log)
    {
      hide StageOf, AppsSafe, FinishedIs, Transcript, Derivations;
      Logged(ReceivedHs(kind, bytes, body));
      StageLogged(ReceivedHs(kind, bytes, body));
      log := log + [ReceivedHs(kind, bytes, body)];
    }

    /** A handshake message: numbered and whole, processed, and then made part of the transcript. */
    method Rx(kind: int, seqNo: int, whole: bool, bytes: Bytes, body: Bytes) returns (exit: Exit)
      requires Valid()
      modifies this, record, record.Objects()
      ensures Core() && (exit == Normal ==> Valid() && log == old(log) + [ReceivedHs(kind, bytes, body)])
      ensures if seqNo == old(rxSeq) then rxSeq == old(rxSeq) + 1 else exit == RuntimeError && rxSeq == old(rxSeq)
      ensures old(log) <= log && ephemeralKey == old(ephemeralKey) && Away(exit, old(hsState))
      ensures fresh(record.Objects() - old(record.Objects()))
      ensures delivered == old(delivered)
      ensures var w := Heard(c, old(Now()), kind, seqNo, whole, bytes, body);
              w.Some? ==> exit == Normal && w == Some(Now())
      ensures seqNo == old(rxSeq) && whole && Denied(c, old(Now()), kind, body) ==> Refused(exit)
      ensures seqNo == old(rxSeq) && whole && Breaks(c, old(Now()), kind, body) ==>
                exit == OtherError && Now() == old(Now()).(rxSeq := rxSeq)
      ensures seqNo != old(rxSeq) || !whole || kind !in {2, 3, 11, 12, 13, 14, 20} ==>
                exit == RuntimeError && Now() == old(Now()).(rxSeq := rxSeq)
    {
      hide StageOf, AppsSafe, FinishedIs, StageFits, Transcript, ParametersFit, Derivations, Turn, MayJoin, KeyBlock, Agreed,
           Negotiated, Valid, Core, Denied, Breaks, Now;
      HasCore();
      NowIs();
      OtherNumber(c, Now(), rxSeq + 1, kind, body);
      if seqNo != rxSeq {
        return RuntimeError;
      }
      CountMessage();
      if !whole {
        return RuntimeError;
      }
      exit := ProcessAndKeep(kind, bytes, body);
    }

    method CountMessage()
      requires Valid()
      modifies this`rxSeq
      ensures Valid() && Core() && rxSeq == old(rxSeq) + 1 && Now() == old(Now()).(rxSeq := rxSeq)
    {
      hide Core, StageFits, ParametersFit;
      rxSeq := rxSeq + 1;
    }

    method ProcessAndKeep(kind: int, bytes: Bytes, body: Bytes) returns (exit: Exit)
      requires Valid()
      modifies this, record, record.currentWrite`nextTx
      ensures Core() && (exit == Normal ==> Valid() && log == old(log) + [ReceivedHs(kind, bytes, body)])
      ensures rxSeq == old(rxSeq) && old(log) <= log && ephemeralKey == old(ephemeralKey) && Away(exit, old(hsState))
      ensures fresh(record.Objects() - old(record.Objects())) && delivered == old(delivered)
      ensures var w := Turn(c, old(Now()), kind, body);
              w.Some? ==> exit == Normal && Now() == w.value.(log := w.value.log + [ReceivedHs(kind, bytes, body)])
      ensures Denied(c, old(Now()), kind, body) ==> Refused(exit)
      ensures Breaks(c, old(Now()), kind, body) ==> exit == OtherError && Now() == old(Now())
      ensures kind !in {2, 3, 11, 12, 13, 14, 20} ==> exit == RuntimeError && Now() == old(Now())
    {
      hide StageOf, AppsSafe, FinishedIs, StageFits, Transcript, ParametersFit, Derivations, Turn, MayJoin, KeyBlock, Agreed,
           Negotiated;
      exit := Process(kind, body);
      if exit != Normal {
        return;
      }
      TakeIn(kind, bytes, body);
    }

    method TakeIn(kind: int, bytes: Bytes, body: Bytes)
      requires MayJoin(kind, body) && Core()
      modifies this`hashInput, this`hsData, this`log
      ensures Valid() && log == old(log) + [ReceivedHs(kind, bytes, body)]
      ensures Now() == old(Now()).(log := log)
    {
      hide StageOf, AppsSafe, FinishedIs, StageFits, Transcript, ParametersFit, Derivations;
      hashInput := hashInput + bytes;
      hsData := hsData + bytes;
      Join(kind, bytes, body);
    }

    /** The server's ChangeCipherSpec: from now on it is read with the negotiated parameters. */
    method RxChangeCipher(data: Bytes) returns (exit: Exit)
      requires Valid()
      modifies this`hsState, this`log, record, record.Objects()
      ensures Core() && (exit == Normal ==> Valid() && log == old(log) + [ReceivedCcs] && old(hsState) == WaitChangeCipher)
      ensures exit == Normal ==>
                hsState == WaitFinished && record.currentRead == old(record.pendingRead) && record.pendingRead == null
      ensures old(hsState) == WaitChangeCipher && data == [1] ==> exit == Normal && Now() == Changing(old(Now()))
      ensures old(hsState) == WaitChangeCipher && data != [1] ==> exit == RuntimeError && Now() == old(Now())
      ensures old(hsState) != WaitChangeCipher ==> Refused(exit)
      ensures old(log) <= log && Away(exit, old(hsState))
      ensures fresh(record.Objects() - old(record.Objects()))
    {
      hide StageOf, AppsSafe, Transcript, Derivations;
      exit := HsCheck(hsState == WaitChangeCipher);
      if exit != Normal {
        return;
      }
      if |data| != 1 || data[0] != 1 {
        return RuntimeError;
      }
      exit := TakeChangeCipher();
    }

    method TakeChangeCipher() returns (exit: Exit)
      requires Valid() && hsState == WaitChangeCipher
      modifies this`hsState, this`log, record`currentRead, record`pendingRead
      ensures exit == Normal && Valid() && log == old(log) + [ReceivedCcs]
      ensures hsState == WaitFinished && record.currentRead == old(record.pendingRead) && record.pendingRead == null
      ensures Now() == Changing(old(Now()))
      ensures record.Objects() <= old(record.Objects())
    {
      hide StageOf, AppsSafe, Transcript, Derivations, KeyBlock, FinishedIs, Negotiated;
      exit := record.PendingReadActivate();
      hsState := WaitFinished;
      Logged(ReceivedCcs);
      StageLogged(ReceivedCcs);
      log := log + [ReceivedCcs];
    }

    /** What is read now is protected, by the parameters that the handshake has agreed on. */
    ghost predicate ReadsProtected()
      reads this`log, this`master, this`serverRandom, record, record.currentRead
    {
      record.currentRead.cipher != NULL_SUITE && Agreed() && (StageOf(c, log).Changed? || StageOf(c, log).Done?)
    }

    /** Reading is protected exactly in epoch 1, that is from the server's ChangeCipherSpec on. */
    lemma ProtectedIff()
      requires Valid()
      ensures ReadsProtected() <==> record.currentRead.epoch == 1
      ensures record.currentRead.epoch == 1 <==> hsState == WaitFinished || record.isSecure
      ensures record.currentRead.epoch != 1 ==> record.currentRead.epoch == 0 && record.currentRead.cipher == NULL_SUITE
    {
      hide Core, StageOf;
    }

    /** What is pending is not what is read. */
    lemma PendingIsNew()
      requires Valid()
      ensures record.pendingRead != record.currentRead
    {
      hide Core, StageOf;
    }

    /** The record holds application data that is handed on: is_secure is not asked. */
    predicate Delivers(r: RecordIn)
      reads this`appHandler, record, record.currentRead, record.currentWrite
    {
      && (r.oddVersion ==> !record.currentWrite.Exhausted())
      && r.epoch == record.currentRead.epoch
      && r.seqNo == record.currentRead.nextRx
      && r.decrypted.Some? && r.decrypted.value.App? && appHandler
    }

    method HandOn(data: Bytes)
      requires Valid()
      modifies this`delivered
      ensures Valid() && Core() && Now() == old(Now()) && delivered == old(delivered) + [data]
    {
      hide Core, StageFits, ParametersFit;
      delivered := delivered + [data];
    }

    /** The content of a record goes to the protocol it belongs to. */
    method Dispatch(content: Content) returns (exit: Exit)
      requires Valid()
      modifies this, record, record.Objects()
      ensures Core() && (exit == Normal ==> Valid())
      ensures old(log) <= log && ephemeralKey == old(ephemeralKey) && Away(exit, old(hsState))
      ensures fresh(record.Objects() - old(record.Objects()))
      ensures delivered == old(delivered) + if content.App? && old(appHandler) then [content.data] else []
      ensures exit == Normal && content.App? ==> old(appHandler)
      ensures var w := Opened(c, old(Now()), content); w.Some? ==> exit == Normal && w == Some(Now())
      ensures content == Alert(true) ==> exit == RuntimeError && record.Clear()
      ensures content.App? && !old(appHandler) ==> exit == RuntimeError && Now() == old(Now())
    {
      hide Core, StageFits, ParametersFit, Heard, Changing, Valid, Now;
      HasCore();
      NowIs();
      match content
      case Hs(kind, seqNo, whole, bytes, body) => exit := Rx(kind, seqNo, whole, bytes, body);
      case Ccs(data) => exit := RxChangeCipher(data);
      case Alert(closing) =>
        exit := Normal;
        if closing {
          record.SecurityParametersClear();
          exit := RuntimeError;
        }
      case App(data) =>
        if !appHandler {
          return RuntimeError;
        }
        HandOn(data);
        exit := Normal;
      case Other => exit := Normal;
    }

    /** A received record: checked, and handed to the protocol it belongs to. */
    method RxRecord(r: RecordIn) returns (exit: Exit)
      requires Valid()
      modifies this, record, record.Objects()
      ensures Core() && (exit == Normal ==> Valid())
      ensures old(log) <= log && ephemeralKey == old(ephemeralKey) && Away(exit, old(hsState))
      ensures fresh(record.Objects() - old(record.Objects()))
      ensures exit == Normal ==>
                r.epoch == old(record.currentRead.epoch) && r.seqNo == old(record.currentRead.nextRx) && r.decrypted.Some?
      ensures delivered == old(delivered) + if old(Delivers(r)) then [r.decrypted.value.data] else []
      ensures old(Delivers(r)) ==> (old(ReadsProtected()) <==> r.epoch == 1)
      ensures exit == Normal && r.decrypted.value.App? ==> old(Delivers(r))
      ensures var w := Step(c, old(Now()), r); w.Some? ==> exit == Normal && w == Some(Now())
      ensures r.epoch != old(record.currentRead.epoch) ==> exit == RuntimeError && Now() == old(Now())
      ensures !r.oddVersion && r.epoch == old(record.currentRead.epoch)
              && (r.seqNo != old(record.currentRead.nextRx) || r.decrypted.None?)
              ==> exit == RuntimeError && Now() == old(Now()).(readNext := old(record.currentRead.nextRx) + 1)
      ensures r == RecordIn(false, old(record.currentRead.epoch), old(record.currentRead.nextRx), Some(Alert(true))) ==>
                exit == RuntimeError && record.Clear()
    {
      hide Core, StageFits, ParametersFit, ReadsProtected, Opened, Valid;
      HasCore();
      ProtectedIff();
      if r.oddVersion {
        exit := record.Tx();
        if exit != Normal {
          return;
        }
      }
      if r.epoch != record.currentRead.epoch {
        return RuntimeError;
      }
      exit := TakeRecord(r);
    }

    method CountRecord() returns (n: nat)
      requires Valid()
      modifies record.currentRead`nextRx
      ensures Valid() && Core() && n == old(record.currentRead.nextRx) && Now() == old(Now()).(readNext := n + 1)
    {
      hide Core, StageFits, ParametersFit;
      PendingIsNew();
      n := record.currentRead.nextRx;
      record.currentRead.nextRx := n + 1;
    }

    /** A record of the current epoch: it uses up the number that is expected, whatever its own is. */
    method TakeRecord(r: RecordIn) returns (exit: Exit)
      requires Valid() && r.epoch == record.currentRead.epoch
      modifies this, record, record.Objects()
      ensures Core() && (exit == Normal ==> Valid())
      ensures old(log) <= log && ephemeralKey == old(ephemeralKey) && Away(exit, old(hsState))
      ensures fresh(record.Objects() - old(record.Objects()))
      ensures var fits := r.seqNo == old(record.currentRead.nextRx) && r.decrypted.Some?;
              && (exit == Normal ==> fits && (r.decrypted.value.App? ==> old(appHandler)))
              && delivered == old(delivered) +
                 (if fits && r.decrypted.value.App? && old(appHandler) then [r.decrypted.value.data] else [])
              && (!fits ==> exit == RuntimeError && Now() == old(Now()).(readNext := old(record.currentRead.nextRx) + 1))
              && (fits && r.decrypted.value == Alert(true) ==> exit == RuntimeError && record.Clear())
      ensures Follows(exit, Step(c, old(Now()), r))
    {
      hide Core, StageFits, ParametersFit, Opened, Valid, Now;
      HasCore();
      NowIs();
      var n := CountRecord();
      if r.seqNo != n || r.decrypted.None? {
        return RuntimeError;
      }
      exit := Dispatch(r.decrypted.value);
    }

    /** What one poll of the line brings, up to the first record that raises. */
    method Poll(batch: seq<RecordIn>) returns (exit: Exit)
      requires Valid()
      modifies this, record, record.Objects()
      ensures Core() && (exit == Normal ==> Valid())
      ensures old(log) <= log && ephemeralKey == old(ephemeralKey) && Away(exit, old(hsState))
      ensures fresh(record.Objects() - old(record.Objects()))
      ensures Follows(exit, Steps(c, old(Now()), batch))
    {
      hide Core, StageFits, ParametersFit, Step, Now, Record.Objects;
      exit := Normal;
      ghost var all := Steps(c, Now(), batch);
      assert batch[0..] == batch;
      for i := 0 to |batch|
        invariant Valid() && fresh(record.Objects() - old(record.Objects()))
        invariant old(log) <= log && ephemeralKey == old(ephemeralKey) && Away(exit, old(hsState))
        invariant exit == Normal && (all.Some? ==> all == Steps(c, Now(), batch[i..]))
      {
        assert batch[i..][1..] == batch[i + 1..];
        ghost var known := record.Objects();
        label Before:
        exit := RxRecord(batch[i]);
        forall o | o in record.Objects() && o !in known ensures fresh(o) {
          assert o in record.Objects() - known && fresh@Before(o);
        }
        if exit != Normal {
          return;
        }
      }
    }

    predicate Reached(goal: Goal)
      reads this, record
    {
      match goal
      case CookieOrCertificate => hsState == SendHelloCookie || hsState == SendCertificate
      case CertificateTurn => hsState == SendCertificate
      case Secure => record.isSecure
    }

    lemma ReachedIs(goal: Goal)
      ensures Reached(goal) <==> At(goal, Now())
    {
    }

    /** At most twenty polls; line(n) is what poll number n brings. */
    method PollUntil(goal: Goal, line: nat -> seq<RecordIn>, start: nat) returns (exit: Exit, next: nat)
      requires Valid()
      modifies this, record, record.Objects()
      ensures Core() && (exit == Normal ==> Valid() && start <= next <= start + POLLS)
      ensures old(log) <= log && ephemeralKey == old(ephemeralKey) && Away(exit, old(hsState))
      ensures exit == Normal ==> Reached(goal) || next == start + POLLS
      ensures fresh(record.Objects() - old(record.Objects()))
      ensures var all := Polls(c, old(Now()), goal, line, start, 20); all.Some? ==> exit == Normal && all.value == (Now(), next)
    {
      hide Core, StageFits, ParametersFit, Steps, Polls, Now, Reached, At, Valid, Record.Objects;
      exit, next := Normal, start;
      ghost var all := Polls(c, Now(), goal, line, start, 20);
      var count := POLLS;
      while count > 0 && !Reached(goal)
        invariant 0 <= count && next + count == start + POLLS
        invariant Valid() && fresh(record.Objects() - old(record.Objects()))
        invariant old(log) <= log && ephemeralKey == old(ephemeralKey) && Away(exit, old(hsState))
        invariant exit == Normal && (all.Some? ==> all == Polls(c, Now(), goal, line, next, count))
      {
        ReachedIs(goal);
        PollsUnfold(c, Now(), goal, line, next, count);
        ghost var known := record.Objects();
        label Before:
        exit := Poll(line(next));
        forall o | o in record.Objects() && o !in known ensures fresh(o) {
          assert o in record.Objects() - known && fresh@Before(o);
        }
        if exit != Normal {
          return;
        }
        next := next + 1;
        count := count - 1;
      }
      ReachedIs(goal);
      PollsUnfold(c, Now(), goal, line, next, count);
      HasCore();
    }

    lemma HasCore()
      requires Valid()
      ensures Core()
    {
    }

    method SendClientCertificate() returns (exit: Exit)
      requires Valid()
      modifies this, record.currentWrite`nextTx
      ensures Core() && (exit == Normal ==> Valid() && hsState == SendKeyExchange)
      ensures old(log) <= log && ephemeralKey == old(ephemeralKey) && (exit == Normal || exit == RuntimeError)
      ensures exit == Normal ==> Sent(CERTIFICATE, c.clientCertificate, old(log), old(txSeq))
      ensures old(hsState) == SendCertificate ==> exit == Normal && Now() == Certified(c, old(Now()))
    {
      hide StageOf, AppsSafe, Transcript, Derivations;
      exit := HsCheck(hsState == SendCertificate);
      if exit != Normal {
        return;
      }
      exit := HsSend(CERTIFICATE, c.clientCertificate);
      if exit == Normal {
        hsState := SendKeyExchange;
      }
    }

    /** The ephemeral key is used once: without it the source fails in a way that nothing catches. */
    method SendClientKeyExchange() returns (exit: Exit)
      requires Valid()
      modifies this, record.currentWrite`nextTx
      ensures Core() && (exit == Normal ==> Valid() && hsState == CalcMaster && ephemeralKey == old(ephemeralKey))
      ensures exit == Normal ==> ephemeralKey.Some? && Sent(CLIENT_KEY_EXCHANGE, ephemeralKey.value, old(log), old(txSeq))
      ensures exit == NoKey <==> old(hsState) == SendKeyExchange && old(ephemeralKey).None?
      ensures old(log) <= log && exit != OtherError && (exit == NoKey ==> hsState == SendKeyExchange && ephemeralKey.None?)
      ensures old(hsState) == SendKeyExchange && old(ephemeralKey).Some? ==> exit == Normal && Now() == Exchanged(c, old(Now()))
    {
      hide StageOf, AppsSafe, Transcript, Derivations;
      exit := HsCheck(hsState == SendKeyExchange);
      if exit != Normal {
        return;
      }
      if ephemeralKey.None? {
        return NoKey;
      }
      exit := HsSend(CLIENT_KEY_EXCHANGE, ephemeralKey.value);
      if exit == Normal {
        hsState := CalcMaster;
      }
    }

    method CalcMasterSecret() returns (exit: Exit)
      requires Valid()
      modifies this, record.currentWrite`nextTx
      ensures Core() && (exit == Normal ==> Valid() && hsState == CalcParams && ephemeralKey.None? && serverEphemeral.None?)
      ensures old(log) <= log && Away(exit, old(hsState))
      ensures exit == Normal ==> old(ephemeralKey).Some? && old(serverEphemeral).Some? && old(serverRandom).Some?
      ensures exit == Normal ==>
                var pre := c.dh(old(ephemeralKey).value, old(serverEphemeral).value);
                master == Some(if old(extendedMaster) then c.prf(pre, "extended master secret", c.sha(Transcript(old(log))))
                               else c.prf(pre, "master secret", clientRandom + old(serverRandom).value))
      ensures old(hsState) == CalcMaster && old(HasKeys(Now())) ==> exit == Normal && Now() == Derived(c, clientRandom, old(Now()))
    {
      hide StageOf, AppsSafe, Transcript, Derivations, KeyBlock, Agreed, Negotiated;
      exit := HsCheck(hsState == CalcMaster);
      if exit != Normal {
        return;
      }
      if ephemeralKey.None? || serverEphemeral.None? || serverRandom.None? {
        return OtherError;
      }
      DeriveMaster();
    }

    method DeriveMaster()
      requires Valid() && hsState == CalcMaster && ephemeralKey.Some? && serverEphemeral.Some? && serverRandom.Some?
      modifies this`master, this`hsState, this`log, this`ephemeralKey, this`serverEphemeral
      ensures Valid() && old(log) <= log && Now() == Derived(c, clientRandom, old(Now()))
    {
      hide StageOf, AppsSafe, Transcript, Derivations, KeyBlock, Agreed, Negotiated;
      var pre := c.dh(ephemeralKey.value, serverEphemeral.value);
      serverEphemeral := None;
      var m := if extendedMaster then c.prf(pre, "extended master secret", c.sha(hashInput))
               else c.prf(pre, "master secret", clientRandom + serverRandom.value);
      TakeMaster(m);
    }

    method TakeMaster(m: Bytes)
      requires Valid() && hsState == CalcMaster && ephemeralKey.Some?
      modifies this`master, this`hsState, this`log, this`ephemeralKey
      ensures Valid() && hsState == CalcParams && master == Some(m) && log == old(log) + [Keys(m)] && ephemeralKey.None?
      ensures Now() == old(Now()).(hsState := CalcParams, master := Some(m), ephemeralKey := None, log := log)
    {
      hide StageOf, AppsSafe, Transcript, Derivations, KeyBlock, Agreed, Negotiated;
      ephemeralKey := None;
      master := Some(m);
      hsState := CalcParams;
      Logged(Keys(m));
      StageLogged(Keys(m));
      log := log + [Keys(m)];
    }

    method CalcSecurityParams() returns (exit: Exit)
      requires Valid()
      modifies this`hsState, record, record.currentWrite`nextTx
      ensures Core() && (exit == Normal ==> Valid() && hsState == SendCertVerify)
      ensures old(log) <= log && Away(exit, old(hsState))
      ensures exit == Normal ==> record.pendingRead != null && record.pendingRead.keyBlock == KeyBlock()
                                 && record.pendingRead.cipher == 0xC0AE && record.pendingRead.epoch == 1
      ensures exit == Normal ==> record.pendingWrite != null && record.pendingWrite.nextTx == 0
      ensures old(hsState) == CalcParams && serverRandom.Some? ==> exit == Normal && Now() == Prepared(old(Now()))
      ensures fresh(record.Objects() - old(record.Objects()))
    {
      hide StageOf, AppsSafe, Transcript, Derivations, Agreed, KeyUse, Core;
      exit := HsCheck(hsState == CalcParams);
      if exit != Normal {
        return;
      }
      if serverRandom.None? {
        return OtherError;
      }
      exit := Negotiate();
    }

    method Negotiate() returns (exit: Exit)
      requires Valid() && hsState == CalcParams && serverRandom.Some?
      modifies this`hsState, record`pendingRead, record`pendingWrite
      ensures exit == Normal && Valid() && hsState == SendCertVerify && Now() == Prepared(old(Now()))
      ensures record.pendingRead != null && record.pendingRead.keyBlock == KeyBlock()
      ensures record.pendingRead.cipher == 0xC0AE && record.pendingRead.epoch == 1
      ensures record.pendingWrite != null && record.pendingWrite.nextTx == 0
      ensures fresh(record.Objects() - old(record.Objects()))
    {
      hide StageOf, AppsSafe, Transcript, Derivations, Agreed, KeyUse, Core;
      var keyBlock := c.prf(master.value, "key expansion", serverRandom.value + clientRandom);
      exit := record.PendingSecurityParametersSet(AES_CCM_8, record.currentRead.epoch + 1, keyBlock);
      if exit == Normal {
        hsState := SendCertVerify;
      }
    }

    method SendClientCertVerify() returns (exit: Exit)
      requires Valid()
      modifies this, record.currentWrite`nextTx
      ensures Core() && (exit == Normal ==> Valid() && hsState == SendChangeCipher)
      ensures old(log) <= log && Away(exit, old(hsState))
      ensures exit == Normal ==> Sent(CERTIFICATE_VERIFY, c.sign(Transcript(old(log))), old(log), old(txSeq))
      ensures old(hsState) == SendCertVerify ==> exit == Normal && Now() == Verified(c, old(Now()))
      ensures exit == Normal ==> record.pendingWrite != null && record.pendingWrite.nextTx == old(record.pendingWrite.nextTx)
    {
      hide Core, StageFits, ParametersFit, Now, Verified, Transcript;
      HasCore();
      exit := HsCheck(hsState == SendCertVerify);
      if exit == Normal {
        exit := SendProof();
      }
    }

    lemma ProofBody()
      requires Valid()
      ensures Core() && hsData == Transcript(log)
    {
    }

    method SendProof() returns (exit: Exit)
      requires Valid() && hsState == SendCertVerify
      modifies this`hsState, this`txSeq, this`hashInput, this`hsData, this`log, record.currentWrite`nextTx
      ensures exit == Normal && Valid() && hsState == SendChangeCipher
      ensures Sent(CERTIFICATE_VERIFY, c.sign(Transcript(old(log))), old(log), old(txSeq)) && old(log) <= log
      ensures Now() == Verified(c, old(Now()))
      ensures record.pendingWrite != null && record.pendingWrite.nextTx == old(record.pendingWrite.nextTx)
    {
      hide StageOf, AppsSafe, Transcript, Derivations, KeyBlock, KeyUse, Agreed, Core, FinishedIs;
      ProofBody();
      var body := c.sign(hsData);
      StageLogged(SentHs(CERTIFICATE_VERIFY, c.wrap(CERTIFICATE_VERIFY, txSeq, body), body));
      exit := HsSend(CERTIFICATE_VERIFY, body);
      if exit == Normal {
        hsState := SendChangeCipher;
      }
    }

    /** The client's ChangeCipherSpec goes out under the old parameters; then the negotiated ones are used. */
    method SendClientChangeCipher() returns (exit: Exit)
      requires Valid()
      modifies this`hsState, this`log, record, record.currentWrite`nextTx
      ensures Core() && (exit == Normal ==> Valid() && hsState == SendFinished && log == old(log) + [SentCcs])
      ensures old(log) <= log && Away(exit, old(hsState))
      ensures old(record.currentWrite).nextTx == old(record.currentWrite.nextTx) + 1
      ensures if exit == Normal then
                record.currentWrite == old(record.pendingWrite) && record.currentWrite.nextTx == old(record.pendingWrite.nextTx)
              else record.currentWrite == old(record.currentWrite)
      ensures old(hsState) == SendChangeCipher ==> exit == Normal && Now() == Switched(old(Now()))
      ensures record.Objects() <= old(record.Objects())
    {
      hide StageOf, AppsSafe, Transcript, Derivations;
      exit := HsCheck(hsState == SendChangeCipher);
      if exit != Normal {
        return;
      }
      exit := record.Tx();
      if exit != Normal {
        return;
      }
      exit := UsePendingWrite();
    }

    method UsePendingWrite() returns (exit: Exit)
      requires Valid() && hsState == SendChangeCipher
      modifies this`hsState, this`log, record`currentWrite, record`pendingWrite
      ensures exit == Normal && Valid() && hsState == SendFinished && log == old(log) + [SentCcs]
      ensures record.currentWrite == old(record.pendingWrite) && Now() == Switched(old(Now()))
      ensures record.Objects() <= old(record.Objects())
    {
      hide StageOf, AppsSafe, Transcript, Derivations, KeyBlock, Agreed, FinishedIs;
      exit := record.PendingWriteActivate();
      hsState := SendFinished;
      Logged(SentCcs);
      StageLogged(SentCcs);
      log := log + [SentCcs];
    }

    method SendClientFinished() returns (exit: Exit)
      requires Valid()
      modifies this, record.currentWrite`nextTx
      ensures Core() && (exit == Normal ==> Valid() && hsState == WaitChangeCipher && master.Some?)
      ensures old(log) <= log && Away(exit, old(hsState))
      ensures exit == Normal ==>
                Sent(FINISHED, c.prf(master.value, "client finished", c.sha(Transcript(old(log)))), old(log), old(txSeq))
      ensures old(hsState) == SendFinished && old(master).Some? && !old(record.currentWrite.Exhausted()) ==>
                exit == Normal && Now() == Closed(c, old(Now()))
    {
      hide StageOf, Core, FinishedIs, Transcript;
      exit := HsCheck(hsState == SendFinished);
      if exit == Normal {
        exit := SendFinishedMessage();
      }
    }

    method SendFinishedMessage() returns (exit: Exit)
      requires Valid() && hsState == SendFinished
      modifies this`hsState, this`txSeq, this`hashInput, this`hsData, this`log, record.currentWrite`nextTx
      ensures Core() && (exit == Normal ==> Valid() && hsState == WaitChangeCipher)
      ensures exit == Normal || (exit == RuntimeError && hsState == SendFinished)
      ensures !old(record.currentWrite.Exhausted()) ==> exit == Normal && Now() == Closed(c, old(Now()))
      ensures Sent(FINISHED, c.prf(master.value, "client finished", c.sha(Transcript(old(log)))), old(log), old(txSeq))
    {
      hide StageOf, Core, FinishedIs, Transcript, KeyBlock, AppsSafe, Derivations, KeyUse, Agreed, Negotiated;
      var body := c.prf(master.value, "client finished", c.sha(hashInput));
      FinishedTest(master.value, "client finished", body);
      StageLogged(SentHs(FINISHED, c.wrap(FINISHED, txSeq, body), body));
      exit := HsSend(FINISHED, body);
      if exit == Normal {
        hsState := WaitChangeCipher;
      }
    }

    /** The first half of the flight: certificate, key exchange, and what is computed from it. */
    method ShareKeys() returns (exit: Exit)
      requires Valid()
      modifies this, record, record.currentWrite`nextTx
      ensures Core() && (exit == Normal ==> Valid())
      ensures old(log) <= log && (exit == NoKey ==> hsState == SendKeyExchange && old(ephemeralKey).None?)
      ensures exit == Normal || exit == OtherError ==> hsState != SendKeyExchange
      ensures fresh(record.Objects() - old(record.Objects()))
      ensures exit == Normal ==> record.pendingWrite != null && record.pendingWrite.nextTx == 0 && hsState == SendCertVerify
      ensures old(hsState) == SendCertificate && old(HasKeys(Now())) ==>
                exit == Normal && Now() == Prepared(Derived(c, clientRandom, Exchanged(c, Certified(c, old(Now())))))
    {
      hide Core, StageFits, ParametersFit, Sent, Transcript, KeyBlock, Valid, Derived, Prepared;
      exit := SendClientCertificate();
      if exit != Normal {
        return;
      }
      exit := SendClientKeyExchange();
      if exit != Normal {
        return;
      }
      exit := ComputeKeys();
    }

    method ComputeKeys() returns (exit: Exit)
      requires Valid()
      modifies this, record, record.currentWrite`nextTx
      ensures Core() && (exit == Normal ==> Valid())
      ensures old(log) <= log && Away(exit, old(hsState))
      ensures fresh(record.Objects() - old(record.Objects()))
      ensures exit == Normal ==> record.pendingWrite != null && record.pendingWrite.nextTx == 0 && hsState == SendCertVerify
      ensures old(hsState) == CalcMaster && old(HasKeys(Now())) ==>
                exit == Normal && Now() == Prepared(Derived(c, clientRandom, old(Now())))
    {
      hide Core, StageFits, ParametersFit, Transcript, KeyBlock;
      exit := CalcMasterSecret();
      if exit != Normal {
        return;
      }
      exit := CalcSecurityParams();
    }

    /** The client's whole second flight, once the server has said that it is done. */
    method SendFlight() returns (exit: Exit)
      requires Valid()
      modifies this, record, record.Objects()
      ensures Core() && (exit == Normal ==> Valid())
      ensures old(log) <= log && (exit == NoKey ==> hsState == SendKeyExchange && old(ephemeralKey).None?)
      ensures exit == Normal || exit == OtherError ==> hsState != SendKeyExchange
      ensures fresh(record.Objects() - old(record.Objects()))
      ensures old(hsState) == SendCertificate && old(HasKeys(Now())) ==>
                exit == Normal && Now() == Flight(c, clientRandom, old(Now()))
    {
      hide Core, StageFits, ParametersFit, Sent, Transcript, KeyBlock, Certified, Exchanged, Verified, Switched, Closed;
      exit := ShareKeys();
      if exit != Normal {
        return;
      }
      exit := SwitchKeys();
    }

    /** The second half: the proof of the certificate, the ChangeCipherSpec and the Finished. */
    method SwitchKeys() returns (exit: Exit)
      requires Valid()
      modifies this, record, record.Objects()
      ensures Core() && (exit == Normal ==> Valid() && hsState != SendKeyExchange)
      ensures old(log) <= log && Away(exit, old(hsState))
      ensures record.Objects() <= old(record.Objects())
      ensures old(hsState) == SendCertVerify && old(master).Some? && old(record.pendingWrite != null && record.pendingWrite.nextTx == 0)
              ==> exit == Normal && Now() == Closed(c, Switched(Verified(c, old(Now()))))
    {
      hide Core, StageFits, ParametersFit, Sent, Transcript, KeyBlock;
      exit := SendClientCertVerify();
      if exit != Normal {
        return;
      }
      exit := SendClientChangeCipher();
      if exit != Normal {
        return;
      }
      exit := SendClientFinished();
    }

    /** The first ClientHello and, if the server asks for it, the second one with its cookie. */
    method SayHello(line: nat -> seq<RecordIn>) returns (exit: Exit, n: nat)
      requires Valid() && !record.isSecure
      modifies this, record, record.Objects()
      ensures Core() && (exit == Normal ==> Valid())
      ensures ephemeralKey == old(ephemeralKey)
      ensures old(log) <= log && exit != NoKey && (exit == Normal || exit == OtherError ==> hsState != SendKeyExchange)
      ensures exit == Normal ==> HelloAt(log, |old(log)|)
      ensures fresh(record.Objects() - old(record.Objects()))
      ensures var all := Greeting(c, clientRandom, old(Now()), line);
              (old(hsState) == Idle || old(hsState) == Failed) && |clientRandom| == 32 && all.Some? ==>
                exit == Normal && all.value == (Now(), n)
    {
      hide Core, StageFits, ParametersFit, Sent, Greeted, Polls, GreetAgain;
      n := 0;
      exit := FirstHello();
      if exit != Normal {
        return;
      }
      exit, n := PollUntil(CookieOrCertificate, line, 0);
      if exit != Normal {
        return;
      }
      if hsState == SendHelloCookie {
        exit, n := SayHelloAgain(line, n);
      }
    }

    method FirstHello() returns (exit: Exit)
      requires Valid() && !record.isSecure
      modifies this`hsState, this`txSeq, this`hashInput, this`hsData, this`log, record.currentWrite`nextTx
      ensures Core() && (exit == Normal ==> Valid() && hsState == WaitHelloVerify)
      ensures old(log) <= log && (exit == Normal || exit == RuntimeError)
      ensures exit == Normal ==> HelloAt(log, |old(log)|)
      ensures (old(hsState) == Idle || old(hsState) == Failed) && |clientRandom| == 32 ==>
                exit == Normal && Now() == Greeted(c, clientRandom, old(Now()).(hsState := SendHelloNoCookie), [])
    {
      hide Core, StageFits, ParametersFit, Valid, Greeted, Now;
      HasCore();
      exit := HsCheck(hsState == Idle || hsState == Failed);
      if exit != Normal {
        return;
      }
      Begin();
      exit := SendClientHello([]);
    }

    method SayHelloAgain(line: nat -> seq<RecordIn>, start: nat) returns (exit: Exit, n: nat)
      requires Valid()
      modifies this, record, record.Objects()
      ensures Core() && (exit == Normal ==> Valid())
      ensures old(log) <= log && ephemeralKey == old(ephemeralKey) && Away(exit, old(hsState))
      ensures fresh(record.Objects() - old(record.Objects()))
      ensures var all := GreetAgain(c, clientRandom, old(Now()), line, start);
              old(hsState) == SendHelloCookie && |clientRandom| == 32 && all.Some? ==> exit == Normal && all.value == (Now(), n)
    {
      hide Core, StageFits, ParametersFit, Sent, Greeted, Polls;
      n := start;
      exit := SendCookie();
      if exit != Normal {
        return;
      }
      exit, n := PollUntil(CertificateTurn, line, start);
    }

    method SendCookie() returns (exit: Exit)
      requires Valid()
      modifies this`hsState, this`txSeq, this`hashInput, this`hsData, this`log, record.currentWrite`nextTx
      ensures Core() && (exit == Normal ==> Valid())
      ensures old(log) <= log && Away(exit, old(hsState))
      ensures old(hsState) == SendHelloCookie && serverCookie.Some? && |serverCookie.value| < 256 && |clientRandom| == 32 ==>
                exit == Normal && Now() == Greeted(c, clientRandom, old(Now()), serverCookie.value)
    {
      hide Core, StageFits, ParametersFit, Sent, Greeted;
      exit := HsCheck(serverCookie.Some?);
      if exit != Normal {
        return;
      }
      exit := SendClientHello(serverCookie.value);
    }

    /** The body of do_handshake, inside its rescue. */
    method Attempt(line: nat -> seq<RecordIn>) returns (exit: Exit)
      requires Valid() && !record.isSecure
      modifies this, record, record.Objects()
      ensures Core() && (exit == Normal ==> Valid())
      ensures old(log) <= log && (exit == NoKey ==> hsState == SendKeyExchange && old(ephemeralKey).None?)
      ensures exit == Normal || exit == OtherError ==> hsState != SendKeyExchange
      ensures exit == Normal && record.isSecure ==> old(ephemeralKey).Some?
      ensures fresh(record.Objects() - old(record.Objects()))
      ensures Follows(exit, Course(c, clientRandom, old(Now()), line))
    {
      hide Core, StageFits, ParametersFit, Derivations, HelloAt, Greeting, Answering;
      ghost var before, key := log, ephemeralKey;
      KeyUsed(key);
      var n;
      exit, n := SayHello(line);
      if exit != Normal {
        return;
      }
      ghost var hello := log;
      exit := AnswerServer(line, n);
      if exit == Normal && record.isSecure {
        SecureIsFresh(before, hello, key);
      }
    }

    /** Once the server is done, the client's flight, and polls for the server's answer to it. */
    method AnswerServer(line: nat -> seq<RecordIn>, start: nat) returns (exit: Exit)
      requires Valid() && hsState != SendKeyExchange
      modifies this, record, record.Objects()
      ensures Core() && (exit == Normal ==> Valid())
      ensures old(log) <= log && (exit == NoKey ==> hsState == SendKeyExchange && old(ephemeralKey).None?)
      ensures exit == Normal || exit == OtherError ==> hsState != SendKeyExchange
      ensures fresh(record.Objects() - old(record.Objects()))
      ensures Follows(exit, Answering(c, clientRandom, old(Now()), line, start))
    {
      hide Core, StageFits, ParametersFit, Reached;
      exit := Normal;
      if hsState == SendCertificate {
        exit := SendFlight();
        if exit == Normal {
          var n;
          exit, n := PollUntil(Secure, line, start);
        }
      }
    }

    lemma KeyUsed(key: Option<Bytes>)
      requires Valid() && key == ephemeralKey
      ensures Derivations(log) == if key.Some? then 0 else 1
    {
    }

    /** A handshake that began with a ClientHello and is secure has had its own derivation. */
    lemma SecureIsFresh(before: seq<Event>, hello: seq<Event>, key: Option<Bytes>)
      requires Valid() && record.isSecure && before <= hello <= log && HelloAt(hello, |before|)
      requires Derivations(before) == if key.Some? then 0 else 1
      ensures key.Some?
    {
      hide StageOf, Transcript, AppsSafe, Derivations;
      SecureMeans();
      if key.None? {
        assert log[..|before|] == before;
        DerivationsGrow(log, |before|);
        StaleKeys(c, log, |before|);
      }
    }

    method Begin()
      requires Valid() && !record.isSecure && (hsState == Idle || hsState == Failed)
      modifies this`hsState
      ensures Valid() && hsState == SendHelloNoCookie
      ensures Now() == old(Now()).(hsState := SendHelloNoCookie)
    {
      hsState := SendHelloNoCookie;
    }

    /**
     A RuntimeError of any kind ends in FAILED with the parameters cleared. The ephemeral key is good for one handshake:
     without it none becomes secure, and one that gets as far as the key exchange ends in an exception.
     */
    method DoHandshake(line: nat -> seq<RecordIn>) returns (exit: Exit, ghost caught: bool)
      requires Valid() && !record.isSecure
      modifies this, record, record.Objects()
      ensures Core() && exit != RuntimeError && (exit == Normal ==> Valid())
      ensures caught ==> exit == Normal && hsState == Failed && record.Clear()
      ensures old(log) <= log
      ensures exit == Normal && record.isSecure ==> old(ephemeralKey).Some?
      ensures (exit == NoKey <==> hsState == SendKeyExchange) && (exit == NoKey ==> old(ephemeralKey).None?)
      ensures fresh(record.Objects() - old(record.Objects()))
      ensures Follows(exit, Course(c, clientRandom, old(Now()), line))
      ensures forall s :: old(Ready(clientRandom, Now()) && Answers(c, clientRandom, Now(), s, line)) ==>
                exit == Normal && record.isSecure && Connected(c, clientRandom, old(Now()), s, Now())
    {
      hide Course, Connected, ServerFinished, Accepted, Brings, FinishFlight, HelloFlight;
      AllAnswered(c, clientRandom, Now(), line);
      exit := Attempt(line);
      caught := exit == RuntimeError;
      if exit == RuntimeError {
        record.SecurityParametersClear();
        hsState := Failed;
        exit := Normal;
      }
    }

    /** Dtls_Application#tx: a handshake if there is none, and then the data, or nothing. */
    method Send(data: Bytes, line: nat -> seq<RecordIn>) returns (exit: Exit)
      requires Valid()
      modifies this, record, record.Objects()
      ensures Core() && (exit == Normal ==> Valid())
      ensures old(log) <= log && (exit == NoKey ==> old(ephemeralKey).None?)
      ensures exit == Normal && record.isSecure ==> log != [] && log[|log| - 1] == SentApp(data)
      ensures fresh(record.Objects() - old(record.Objects()))
      ensures forall s :: old(!record.isSecure && Ready(clientRandom, Now()) && Answers(c, clientRandom, Now(), s, line)) ==>
                && record.isSecure
                && log == old(log) + Events(c, clientRandom, old(ephemeralKey).value, old(txSeq), s) + [SentApp(data)]
    {
      hide Core, StageFits, ParametersFit, Events, ServerFinished, Accepted, Brings, FinishFlight, HelloFlight, Course;
      exit := Normal;
      if !record.isSecure {
        ghost var caught;
        exit, caught := DoHandshake(line);
        if exit != Normal {
          return;
        }
      }
      if record.isSecure {
        SecureMeans();
        exit := record.Tx();
        LogApp(data);
      }
    }

    /** Secure means: a completed handshake, one negotiated object of epoch 1 both ways, and nothing pending. */
    lemma SecureMeans()
      requires Valid() && record.isSecure
      ensures hsState == Idle && StageOf(c, log).Done? && Agreed() && hashInput == hsData == Transcript(log)
      ensures Derivations(log) <= 1
    {
    }

    ghost method LogApp(data: Bytes)
      requires Valid() && StageOf(c, log).Done?
      modifies this`log
      ensures Valid() && log == old(log) + [SentApp(data)]
    {
      hide StageOf, AppsSafe, Transcript, Derivations;
      Logged(SentApp(data));
      StageLogged(SentApp(data));
      log := log + [SentApp(data)];
    }
  }

  /** What the application does with the connection. */
  datatype Command = Send(data: Bytes, line: nat -> seq<RecordIn>) | Poll(batch: seq<RecordIn>)

  /**
   Any run: sends and polls in any order, with any records coming in, until something raises out of
   the stack. As long as it has not, the connection is secure only after a whole handshake; and no
   application data was ever sent before one. Keys are derived at most once in the whole run.
   */
  method RunAll(h: Handshake, commands: seq<Command>) returns (alive: bool)
    requires h.Valid()
    modifies h, h.record, h.record.Objects()
    ensures h.hashInput == h.hsData == Transcript(h.log) && AppsSafe(h.c, h.log) && old(h.log) <= h.log
    ensures Derivations(h.log) == if h.ephemeralKey.Some? then 0 else 1
    ensures alive && h.record.isSecure ==>
              h.Agreed() && StageOf(h.c, h.log).Done? && WholeHandshake(h.c, h.log, StageOf(h.c, h.log).master)
  {
    hide StageOf, AppsSafe, Transcript, WholeHandshake, Handshake.StageFits, Handshake.ParametersFit, Handshake.Agreed;
    alive := true;
    for i := 0 to |commands|
      invariant h.Valid() && fresh(h.record.Objects() - old(h.record.Objects())) && old(h.log) <= h.log
    {
      var exit;
      match commands[i] {
        case Send(data, line) => exit := h.Send(data, line);
        case Poll(batch) => exit := h.Poll(batch);
      }
      if exit != Normal {
        return false;
      }
    }
    if h.record.isSecure {
      h.SecureMeans();
      DoneMeans(h.c, h.log);
    }
  }
}
