/** The client side of a session (dnet/client.c): what it sends, what it makes of a message,
    and how it reads a response code.

    `Client` is the bookkeeping of struct dcn_session on values; class DcnSession updates the
    same in place.  A waiter is its ready flag. */
module Session {
  import opened Bytes
  import opened Wrappers
  import opened Codec
  import opened Assoc
  import opened Dispatch

  /** RESP_CODE */
  datatype Resp = UndefinedError | FromUser | NoSuchUser | OkStatus | ForbidenUid | NoData | ServerError

  /** struct usr_resp: forwarded requests of one user in order, its responses by cmuid. */
  datatype Inbox = Inbox(requests: seq<Packet>, responses: seq<Entry<U64, Packet>>)

  /** The two waiters of struct usr_waiter. */
  datatype Flags = Flags(req: bool, resp: bool)

  /** What trp_data_deserial leaves in its result. */
  datatype Trace = Trace(isResponse: bool, uid: U64)

  datatype Client = Client(
    uid: U64,
    lastMuid: U64,
    lastCMuids: seq<Entry<U64, U64>>,
    responses: seq<Entry<U64, Packet>>,
    waiting: seq<Entry<U64, bool>>,
    inboxes: seq<Entry<U64, Inbox>>,
    usrWaiters: seq<Entry<U64, Flags>>,
    reqWaiter: bool,
    traces: seq<U64>,
    trrWaiter: bool)

  // ---- dcn_request, wait_response, dcn_getresp ----

  /** The packet dcn_request serialises. */
  function Stamped(c: Client, p: Packet, to: U64): Packet {
    p.(fromUid := c.uid, toUid := to, fromOs := false, muid := c.lastMuid)
  }

  function Issue(c: Client): Client {
    c.(lastMuid := Add64(c.lastMuid, 1), waiting := Put(c.waiting, c.lastMuid, false))
  }

  /** wait_response, once the flag is up: clears it and forgets the waiter. */
  function Awaited(c: Client, muid: U64): Client {
    c.(waiting := Remove(c.waiting, muid))
  }

  function RespOf(src: Packet): Resp {
    if src.fromUid != 0 then FromUser
    else
      var code := AnswerCode(src);
      if code == 101 then NoSuchUser
      else if code == 102 then ForbidenUid
      else if code == 103 then NoData
      else if code == 200 then OkStatus
      else if code == 500 then ServerError
      else UndefinedError
  }

  function Fetched(c: Client, muid: U64): Client {
    c.(responses := Remove(c.responses, muid))
  }

  function FetchCode(c: Client, muid: U64): Resp {
    match Get(c.responses, muid)
    case Some(src) => RespOf(src)
    case None => UndefinedError
  }

  // ---- request ----

  /** The conversation number request() gives a packet; none for a first packet that is a
      response. */
  function CMuid(c: Client, to: U64, packtype: U32): Option<U64> {
    if to == 0 then Some(0)
    else
      match Get(c.lastCMuids, to)
      case Some(last) => Some(if packtype != RESPONSE then Add64(last, 1) else last)
      case None => if packtype == RESPONSE then None else Some(0)
  }

  /** One call of request(). */
  datatype Ask = Ask(p: Packet, to: U64, trav: U64, packtype: U32)

  /** The packet of the task that request() creates, if it creates one. */
  function Requested(c: Client, a: Ask): Option<Packet> {
    match CMuid(c, a.to, a.packtype)
    case Some(n) => Some(Packet(a.packtype, false, c.uid, a.to, a.trav, 0, 0, n, a.p.data))
    case None => None
  }

  function Numbered(c: Client, to: U64, packtype: U32): Client {
    if to != 0 && Get(c.lastCMuids, to).None? && packtype != RESPONSE
    then c.(lastCMuids := Put(c.lastCMuids, to, 0))
    else c
  }

  // ---- __dcn_on_message ----

  const EMPTY_INBOX := Inbox([], [])

  function InboxOf(c: Client, user: U64): Inbox {
    match Get(c.inboxes, user)
    case Some(b) => b
    case None => EMPTY_INBOX
  }

  function Filed(b: Inbox, p: Packet): Inbox {
    if p.packtype != RESPONSE then b.(requests := b.requests + [p])
    else b.(responses := Put(b.responses, p.cmuid, p))
  }

  /** Forwarded traffic goes to the inbox of its sender and raises the waiters of that user. */
  function Forwarded(c: Client, p: Packet): Client {
    var c1 := c.(inboxes := Put(c.inboxes, p.fromUid, Filed(InboxOf(c, p.fromUid), p)));
    var c2 :=
      match Get(c.usrWaiters, p.fromUid)
      case Some(f) =>
        c1.(usrWaiters := Put(c.usrWaiters, p.fromUid,
              if p.packtype != RESPONSE then f.(req := true) else f.(resp := true)))
      case None => c1;
    if p.packtype != RESPONSE then c2.(reqWaiter := true) else c2
  }

  function Woken(c: Client, muid: U64): Client {
    if Has(c.waiting, muid) then c.(waiting := Put(c.waiting, muid, true)) else c
  }

  function Delivered(c: Client, p: Packet, t: Trace): Client {
    if p.toUid != c.uid then c
    else if p.fromOs then Forwarded(c, p)
    else if p.packtype == TRACEROUTE then
      if !t.isResponse then c.(traces := c.traces + [t.uid], trrWaiter := true)
      else Woken(c, p.muid)
    else Woken(c.(responses := Put(c.responses, p.muid, p)), p.muid)
  }

  // ---- async_misc_grequests ----

  /** The first user in map order with a request waiting. */
  function FirstAsking(inboxes: seq<Entry<U64, Inbox>>): (i: nat)
    ensures i <= |inboxes|
    ensures i < |inboxes| ==> inboxes[i].value.requests != []
    ensures forall j | 0 <= j < i :: inboxes[j].value.requests == []
  {
    if inboxes == [] then 0 else if inboxes[0].value.requests != [] then 0 else 1 + FirstAsking(inboxes[1..])
  }

  function MiscTaken(c: Client): Client {
    var i := FirstAsking(c.inboxes);
    var c' := c.(reqWaiter := false);
    if i < |c.inboxes| then
      var e := c.inboxes[i];
      c'.(inboxes := Put(c.inboxes, e.key, e.value.(requests := e.value.requests[1..])))
    else c'
  }

  function MiscPacket(c: Client): Option<Packet> {
    var i := FirstAsking(c.inboxes);
    if i < |c.inboxes| then Some(c.inboxes[i].value.requests[0]) else None
  }

  ghost predicate Tidy(c: Client) {
    && Distinct(c.inboxes) && Distinct(c.responses) && Distinct(c.waiting)
    && Distinct(c.usrWaiters) && Distinct(c.lastCMuids)
  }

  /** struct dcn_session.  Blocks in the request queues of the code are serialised packets;
      here they are the packets, which DecodeEncode of module Codec makes the same. */
  class DcnSession {
    const cliUid: U64
    var lastMuid: U64
    var lastCMuids: seq<Entry<U64, U64>>
    var readq: seq<Frame>
    var writeq: seq<seq<Byte>>
    var responses: seq<Entry<U64, Packet>>
    var cndResponses: seq<Entry<U64, bool>>
    var usrResponses: seq<Entry<U64, Inbox>>
    var usrWaiters: seq<Entry<U64, Flags>>
    var reqWaiter: bool
    var trrRequests: seq<U64>
    var trrWaiter: bool

    ghost function View(): Client
      reads this
    {
      Client(cliUid, lastMuid, lastCMuids, responses, cndResponses, usrResponses,
             usrWaiters, reqWaiter, trrRequests, trrWaiter)
    }

    constructor (uid: U64)
      ensures View() == Client(uid, 1, [], [], [], [], [], false, [], false)
      ensures readq == [] && writeq == []
    {
      cliUid, lastMuid := uid, 1;
      lastCMuids, readq, writeq, responses := [], [], [], [];
      cndResponses, usrResponses, usrWaiters := [], [], [];
      reqWaiter, trrRequests, trrWaiter := false, [], false;
    }

    /** dcn_request as one step; returns the muid whose waiter it made. */
    method DcnRequest(p: Packet, to: U64) returns (muid: U64)
      modifies this`lastMuid, this`writeq, this`cndResponses
      ensures muid == old(lastMuid) && View() == Issue(old(View()))
      ensures Get(cndResponses, muid) == Some(false)
      ensures forall m: U64 | m != muid :: Get(cndResponses, m) == Get(old(cndResponses), m)
      ensures lastMuid == (old(lastMuid) + 1) % TWO_64
      ensures writeq == old(writeq)
        + [Encode(Packet(p.packtype, false, cliUid, to, p.travFuid, p.travTuid, muid, p.cmuid, p.data))]
    {
      muid := lastMuid;
      writeq := writeq + [Encode(p.(fromUid := cliUid, toUid := to, fromOs := false, muid := lastMuid))];
      lastMuid := Add64(lastMuid, 1);
      forall m: U64
        ensures Get(Put(cndResponses, muid, false), m) == if m == muid then Some(false) else Get(cndResponses, m)
      {
        PutGet(cndResponses, muid, false, m);
      }
      cndResponses := Put(cndResponses, muid, false);
    }

    /** wait_response once the waiter is ready. */
    method WaitResponse(muid: U64)
      requires Get(cndResponses, muid) == Some(true)
      modifies this`cndResponses
      ensures View() == Awaited(old(View()), muid)
      ensures Distinct(old(cndResponses)) ==> Get(cndResponses, muid) == None
      ensures Distinct(old(cndResponses)) ==>
        forall m: U64 | m != muid :: Get(cndResponses, m) == Get(old(cndResponses), m)
    {
      if Distinct(cndResponses) {
        forall m: U64
          ensures Get(Remove(cndResponses, muid), m) == if m == muid then None else Get(cndResponses, m)
        {
          RemoveGet(cndResponses, muid, m);
        }
      }
      cndResponses := Remove(cndResponses, muid);
    }

    /** dcn_getresp; `pack` is the caller's packet, whose cmuid is not overwritten. */
    method DcnGetResp(muid: U64, pack: Packet) returns (found: bool, answer: Packet, code: Resp)
      modifies this`responses
      ensures Distinct(old(responses)) ==>
        && Get(responses, muid) == None
        && forall m: U64 | m != muid :: Get(responses, m) == Get(old(responses), m)
      ensures if found then Means(answer, code) else code == UndefinedError
      ensures found <==> Has(old(responses), muid)
      ensures code == FetchCode(old(View()), muid)
      ensures View() == Fetched(old(View()), muid)
      ensures answer == if found then Get(old(responses), muid).value.(cmuid := pack.cmuid) else pack
    {
      if Distinct(responses) {
        forall m: U64
          ensures Get(Remove(responses, muid), m) == if m == muid then None else Get(responses, m)
        {
          RemoveGet(responses, muid, m);
        }
      }
      hide Remove, IndexOf;
      var src := Get(responses, muid);
      if src.None? {
        return false, pack, UndefinedError;
      }
      RespMeaning(src.value);
      responses := Remove(responses, muid);
      answer := src.value.(cmuid := pack.cmuid);
      found := true;
      if answer.fromUid != 0 {
        code := FromUser;
      } else {
        match AnswerCode(answer)
        case 101 => code := NoSuchUser;
        case 102 => code := ForbidenUid;
        case 103 => code := NoData;
        case 200 => code := OkStatus;
        case 500 => code := ServerError;
        case _ => code := UndefinedError;
      }
    }

    /** request() up to the creation of the task. */
    method Request(p: Packet, to: U64, trav: U64, packtype: U32) returns (task: Option<Packet>)
      modifies this`lastCMuids
      ensures View() == Numbered(old(View()), to, packtype)
      ensures task == Requested(old(View()), Ask(p, to, trav, packtype))
      ensures task.None? <==> to != 0 && packtype == RESPONSE && Get(old(lastCMuids), to) == None
      ensures task.Some? ==>
        && task.value.data == p.data && task.value.toUid == to && task.value.travFuid == trav
        && task.value.packtype == packtype && task.value.fromUid == cliUid && !task.value.fromOs
        && task.value.muid == 0 && task.value.travTuid == 0
      ensures task.Some? ==>
        task.value.cmuid ==
          if to == 0 || Get<U64, U64>(old(lastCMuids), to) == None then 0
          else if packtype == RESPONSE then Get<U64, U64>(old(lastCMuids), to).value
          else (Get<U64, U64>(old(lastCMuids), to).value + 1) % TWO_64
    {
      var cmuid: U64 := 0;
      if to != 0 {
        var last := Get(lastCMuids, to);
        if last.Some? {
          cmuid := if packtype != RESPONSE then Add64(last.value, 1) else last.value;
        } else if packtype == RESPONSE {
          return None;
        } else {
          lastCMuids := Put(lastCMuids, to, 0);
        }
      }
      task := Some(Packet(packtype, false, cliUid, to, trav, 0, 0, cmuid, p.data));
    }

    /** File forwarded traffic; the two branches of the code differ in whether the user has an
        inbox already. */
    method File(p: Packet)
      modifies this`usrResponses, this`usrWaiters, this`reqWaiter
      ensures View() == Forwarded(old(View()), p)
    {
      var target := Get(usrResponses, p.fromUid);
      if target.Some? {
        if p.packtype != RESPONSE {
          usrResponses := Put(usrResponses, p.fromUid, target.value.(requests := target.value.requests + [p]));
        } else {
          usrResponses := Put(usrResponses, p.fromUid, target.value.(responses := Put(target.value.responses, p.cmuid, p)));
        }
      } else {
        if p.packtype != RESPONSE {
          assert EMPTY_INBOX.requests + [p] == [p];
          usrResponses := Put(usrResponses, p.fromUid, Inbox([p], []));
        } else {
          usrResponses := Put(usrResponses, p.fromUid, Inbox([], Put([], p.cmuid, p)));
        }
      }
      var waiter := Get(usrWaiters, p.fromUid);
      if waiter.Some? {
        usrWaiters := Put(usrWaiters, p.fromUid,
          if p.packtype != RESPONSE then waiter.value.(req := true) else waiter.value.(resp := true));
      }
      if p.packtype != RESPONSE {
        reqWaiter := true;
      }
    }

    /** __dcn_on_message; `t` is what parsing a traceroute payload gives.  The packet comes
        from calloc, and a refusal of packet_deserial goes unnoticed. */
    method OnMessage(t: Trace)
      modifies this
      ensures writeq == old(writeq)
      ensures old(readq) != [] ==> HandledAs(old(View()), Parsed(old(readq[0]), ZERO_PACKET), t, View())
      ensures old(readq) == [] ==> View() == old(View()) && readq == []
      ensures old(readq) != [] ==>
        readq == old(readq[1..]) && View() == Delivered(old(View()), Parsed(old(readq[0]), ZERO_PACKET), t)
    {
      if readq == [] {
        return;
      }
      var p := Parsed(readq[0], ZERO_PACKET);
      DeliveredAs(View(), p, t);
      hide HandledAs, Parsed;
      readq := readq[1..];
      if p.toUid != cliUid {
        return;
      }
      if p.fromOs {
        File(p);
        return;
      } else if p.packtype == TRACEROUTE {
        if !t.isResponse {
          trrRequests := trrRequests + [t.uid];
          trrWaiter := true;
          return;
        }
      } else {
        responses := Put(responses, p.muid, p);
      }
      var waiter := Get(cndResponses, p.muid);
      if waiter.Some? {
        cndResponses := Put(cndResponses, p.muid, true);
      }
    }

    /** Miscellaneous mode of __async_grequests, once req_waiter is ready. */
    method MiscRequest() returns (r: Option<Packet>)
      requires reqWaiter && Distinct(usrResponses)
      modifies this`reqWaiter, this`usrResponses
      ensures r == MiscPacket(old(View()))
      ensures View() == MiscTaken(old(View()))
      ensures !reqWaiter
      ensures r.None? ==>
        usrResponses == old(usrResponses) && forall i | 0 <= i < |usrResponses| :: usrResponses[i].value.requests == []
      ensures r.Some? ==> exists i :: TakenFrom(old(usrResponses), i, r.value, usrResponses)
    {
      reqWaiter := false;
      r := None;
      var i := 0;
      while i < |usrResponses|
        invariant i <= |usrResponses| && usrResponses == old(usrResponses)
        invariant forall j | 0 <= j < i :: usrResponses[j].value.requests == []
        modifies {}
      {
        IndexUnique(usrResponses, i);
        var user := usrResponses[i].key;
        var box := Get(usrResponses, user).value;
        if box.requests != [] {
          break;
        }
        i := i + 1;
      }
      if i < |usrResponses| {
        assert i == FirstAsking(usrResponses);
        var e := usrResponses[i];
        r := Some(e.value.requests[0]);
        PutPlace(usrResponses, e.key, e.value.(requests := e.value.requests[1..]));
        assert TakenFrom(old(usrResponses), i, r.value, Put(usrResponses, e.key, e.value.(requests := e.value.requests[1..])));
        usrResponses := Put(usrResponses, e.key, e.value.(requests := e.value.requests[1..]));
      }
    }

    /** The retry loop of __async_req for a session on which nothing else happens: attempt k
        is answered by replies[k]. */
    method AsyncReq(p: Packet, replies: seq<Packet>) returns (code: Resp, attempts: nat)
      requires replies != [] && lastMuid + |replies| < TWO_64
      requires forall k | 0 <= k < |replies| :: Replies(replies[k], cliUid, lastMuid + k)
      requires cndResponses == [] && responses == []
      modifies this
      ensures 0 < attempts <= |replies|
      ensures code == RespOf(replies[attempts - 1])
      ensures forall k | 0 <= k < attempts - 1 :: RespOf(replies[k]) == NoSuchUser
      ensures code == NoSuchUser ==> attempts == |replies|
      ensures lastMuid == old(lastMuid) + attempts && responses == [] && cndResponses == []
      ensures |writeq| == |old(writeq)| + attempts && old(writeq) <= writeq
      ensures forall k | |old(writeq)| <= k < |writeq| ::
        writeq[k]
        == Encode(Packet(p.packtype, false, cliUid, p.toUid, p.travFuid, p.travTuid, old(lastMuid) + k - |old(writeq)|,
                         p.cmuid, p.data))
    {
      hide Encode, RespOf;
      attempts := 0;
      code := NoSuchUser;
      while attempts < |replies| && code == NoSuchUser
        invariant attempts <= |replies|
        invariant lastMuid == old(lastMuid) + attempts
        invariant responses == [] && cndResponses == []
        invariant attempts == 0 ==> code == NoSuchUser
        invariant attempts > 0 ==> code == RespOf(replies[attempts - 1])
        invariant forall k | 0 <= k < attempts - 1 :: RespOf(replies[k]) == NoSuchUser
        invariant |writeq| == |old(writeq)| + attempts && old(writeq) <= writeq
        invariant forall k | |old(writeq)| <= k < |writeq| ::
          writeq[k]
          == Encode(Packet(p.packtype, false, cliUid, p.toUid, p.travFuid, p.travTuid, old(lastMuid) + k - |old(writeq)|,
                           p.cmuid, p.data))
      {
        code := Attempt(p, replies[attempts]);
        attempts := attempts + 1;
      }
    }

    /** One turn: send, handle the answer, wait, fetch the code. */
    method Attempt(p: Packet, reply: Packet) returns (code: Resp)
      requires lastMuid + 1 < TWO_64 && Replies(reply, cliUid, lastMuid)
      requires cndResponses == [] && responses == []
      modifies this
      ensures code == RespOf(reply)
      ensures lastMuid == old(lastMuid) + 1 && responses == [] && cndResponses == []
      ensures writeq == old(writeq)
        + [Encode(Packet(p.packtype, false, cliUid, p.toUid, p.travFuid, p.travTuid, old(lastMuid), p.cmuid, p.data))]
    {
      hide Encode, RespOf, Issue, Delivered, Awaited, Fetched, FetchCode, Decode, HandledAs, Means;
      ghost var c := View();
      Exchange(c, reply, Trace(false, 0));
      var muid := DcnRequest(p, p.toUid);
      readq := [Encode(reply)];
      DecodeEncode(reply);
      OnMessage(Trace(false, 0));
      WaitResponse(muid);
      var _, _, got := DcnGetResp(muid, reply);
      code := got;
    }
  }

  /** One request and its answer leave no trace but the advanced muid. */
  lemma Exchange(c: Client, reply: Packet, t: Trace)
    requires c.responses == [] && c.waiting == [] && c.lastMuid + 1 < TWO_64
    requires Replies(reply, c.uid, c.lastMuid)
    ensures var sent := Issue(c);
      var answered := Delivered(sent, reply, t);
      var awake := Awaited(answered, c.lastMuid);
      && sent.uid == c.uid
      && Get(answered.waiting, c.lastMuid) == Some(true)
      && FetchCode(awake, c.lastMuid) == RespOf(reply)
      && Fetched(awake, c.lastMuid) == c.(lastMuid := c.lastMuid + 1)
  {
    hide RespOf;
    var answered := Delivered(Issue(c), reply, t);
    assert answered.waiting == [Entry(c.lastMuid, true)];
    assert answered.responses == [Entry(c.lastMuid, reply)];
  }

  ghost predicate Replies(reply: Packet, uid: U64, muid: nat) {
    Sized(reply) && reply.toUid == uid && !reply.fromOs && reply.packtype != TRACEROUTE && reply.muid == muid
  }

  // ---- muids ----

  function Issues(c: Client, n: nat): Client {
    if n == 0 then c else Issue(Issues(c, n - 1))
  }

  lemma {:induction false} MuidAfter(c: Client, n: nat)
    ensures Issues(c, n).lastMuid == (c.lastMuid + n) % TWO_64
  {
    if n == 0 {
      Division(c.lastMuid, 0, c.lastMuid);
    } else {
      hide Add64, Put;
      MuidAfter(c, n - 1);
      WrapOnce(c.lastMuid + n - 1);
    }
  }

  /** Two requests of a session get the same muid if and only if their numbers differ by a
      multiple of 2^64. */
  lemma MuidsRepeatIff(c: Client, i: nat, j: nat)
    requires i <= j
    ensures Issues(c, i).lastMuid == Issues(c, j).lastMuid <==> (j - i) % TWO_64 == 0
  {
    hide Issues;
    MuidAfter(c, i);
    MuidAfter(c, j);
    WrapSame(c.lastMuid + i, c.lastMuid + j);
  }

  // ---- Inboxes ----

  datatype Op = Deliver(p: Packet, t: Trace) | Collect

  function Apply(c: Client, op: Op): Client {
    match op
    case Deliver(p, t) => Delivered(c, p, t)
    case Collect => MiscTaken(c)
  }

  function Run(c: Client, ops: seq<Op>): Client {
    if ops == [] then c else Apply(Run(c, ops[..|ops| - 1]), ops[|ops| - 1])
  }

  /** Is p a forwarded request of the user that this session accepts? */
  predicate Asks(uid: U64, user: U64, p: Packet) {
    p.toUid == uid && p.fromOs && p.packtype != RESPONSE && p.fromUid == user
  }

  function Asked(uid: U64, user: U64, ops: seq<Op>): seq<Packet> {
    if ops == [] then []
    else
      var last := ops[|ops| - 1];
      Asked(uid, user, ops[..|ops| - 1])
      + (if last.Deliver? && Asks(uid, user, last.p) then [last.p] else [])
  }

  /** What the collecting calls of a run returned that came from the user. */
  function Collected(c: Client, user: U64, ops: seq<Op>): seq<Packet> {
    if ops == [] then []
    else
      var before := Run(c, ops[..|ops| - 1]);
      var i := FirstAsking(before.inboxes);
      Collected(c, user, ops[..|ops| - 1])
      + (if ops[|ops| - 1].Collect? && i < |before.inboxes| && before.inboxes[i].key == user
         then [before.inboxes[i].value.requests[0]] else [])
  }

  ghost predicate Conserves(c: Client, user: U64, ops: seq<Op>) {
    && Tidy(Run(c, ops)) && Run(c, ops).uid == c.uid
    && Collected(c, user, ops) + InboxOf(Run(c, ops), user).requests == Asked(c.uid, user, ops)
  }

  /** Over any run of messages and collections, a user's requests are handed out in the order
      they were delivered, each once: collected and queued together are what was delivered. */
  lemma {:induction false} InboxConservation(c: Client, user: U64, ops: seq<Op>)
    requires Tidy(c) && c.inboxes == []
    ensures Conserves(c, user, ops)
    ensures Collected(c, user, ops) + InboxOf(Run(c, ops), user).requests == Asked(c.uid, user, ops)
    decreases |ops|
  {
    if ops != [] {
      var n := |ops| - 1;
      InboxConservation(c, user, ops[..n]);
      if ops[n].Deliver? { DeliverConserves(c, user, ops); } else { CollectConserves(c, user, ops); }
    }
  }

  lemma DeliverConserves(c: Client, user: U64, ops: seq<Op>)
    requires ops != [] && ops[|ops| - 1].Deliver? && Conserves(c, user, ops[..|ops| - 1])
    ensures Conserves(c, user, ops)
  {
    hide Delivered, InboxOf, Tidy, Asks, FirstAsking;
    var n := |ops| - 1;
    var before, p := Run(c, ops[..n]), ops[n].p;
    DeliverInbox(before, p, ops[n].t, user);
    Associative(Collected(c, user, ops[..n]), InboxOf(before, user).requests, if Asks(c.uid, user, p) then [p] else []);
  }

  lemma CollectConserves(c: Client, user: U64, ops: seq<Op>)
    requires ops != [] && ops[|ops| - 1].Collect? && Conserves(c, user, ops[..|ops| - 1])
    ensures Conserves(c, user, ops)
  {
    hide MiscTaken, InboxOf, Tidy, Asks, FirstAsking;
    var n := |ops| - 1;
    var before := Run(c, ops[..n]);
    CollectInbox(before, user);
    Shift(Collected(c, user, ops[..n]), InboxOf(before, user).requests);
  }

  lemma Shift(a: seq<Packet>, b: seq<Packet>)
    ensures b != [] ==> a + [b[0]] + b[1..] == a + b
    ensures a + [] + b == a + b
  {
  }

  lemma DeliverInbox(c: Client, p: Packet, t: Trace, user: U64)
    requires Tidy(c)
    ensures Tidy(Delivered(c, p, t)) && Delivered(c, p, t).uid == c.uid
    ensures InboxOf(Delivered(c, p, t), user).requests
         == InboxOf(c, user).requests + (if Asks(c.uid, user, p) then [p] else [])
  {
    hide Put, Get, IndexOf, Has, Forwarded, Woken, Filed;
    if p.toUid == c.uid && p.fromOs {
      ForwardInbox(c, p, user);
    } else {
      PutGet(c.responses, p.muid, p, 0);
      WokenTidy(c, p.muid);
      WokenTidy(c.(responses := Put(c.responses, p.muid, p)), p.muid);
    }
  }

  lemma WokenTidy(c: Client, muid: U64)
    requires Tidy(c)
    ensures Tidy(Woken(c, muid)) && Woken(c, muid) == c.(waiting := Woken(c, muid).waiting)
  {
    hide Put;
    PutGet(c.waiting, muid, true, muid);
  }

  lemma ForwardInbox(c: Client, p: Packet, user: U64)
    requires Tidy(c)
    ensures Tidy(Forwarded(c, p)) && Forwarded(c, p).uid == c.uid
    ensures InboxOf(Forwarded(c, p), user).requests
         == InboxOf(c, user).requests + (if p.packtype != RESPONSE && p.fromUid == user then [p] else [])
  {
    hide Put, Get, IndexOf, Has;
    PutGet(c.inboxes, p.fromUid, Filed(InboxOf(c, p.fromUid), p), user);
    match Get(c.usrWaiters, p.fromUid)
    case Some(f) =>
      PutGet(c.usrWaiters, p.fromUid, if p.packtype != RESPONSE then f.(req := true) else f.(resp := true), 0);
    case None =>
  }

  lemma CollectInbox(c: Client, user: U64)
    requires Tidy(c)
    ensures Tidy(MiscTaken(c)) && MiscTaken(c).uid == c.uid
    ensures var i := FirstAsking(c.inboxes);
      var queued := InboxOf(c, user).requests;
      if i < |c.inboxes| && c.inboxes[i].key == user
      then queued != [] && queued[0] == c.inboxes[i].value.requests[0] && InboxOf(MiscTaken(c), user).requests == queued[1..]
      else InboxOf(MiscTaken(c), user).requests == queued
  {
    var i := FirstAsking(c.inboxes);
    if i < |c.inboxes| {
      var e := c.inboxes[i];
      IndexUnique(c.inboxes, i);
      PutGet(c.inboxes, e.key, e.value.(requests := e.value.requests[1..]), user);
    }
  }

  // ---- What a handled packet changes ----

  /** The inbox of user u before and after: a request is queued behind the others, a response is
      found under its conversation number and no other. */
  ghost predicate InboxAfter(c: Client, p: Packet, after: Client, u: U64) {
    var accepted := p.toUid == c.uid && p.fromOs && u == p.fromUid;
    && InboxOf(after, u).requests
       == InboxOf(c, u).requests + (if accepted && p.packtype != RESPONSE then [p] else [])
    && forall k ::
         Get(InboxOf(after, u).responses, k)
         == if accepted && p.packtype == RESPONSE && k == p.cmuid then Some(p) else Get(InboxOf(c, u).responses, k)
  }

  /** The two waiters of user u: each is raised by its own kind of forwarded traffic. */
  ghost predicate FlagsAfter(c: Client, p: Packet, after: Client, u: U64) {
    var accepted := p.toUid == c.uid && p.fromOs && u == p.fromUid;
    Get(after.usrWaiters, u)
    == match Get(c.usrWaiters, u)
       case None => None
       case Some(f) =>
         Some(Flags(f.req || (accepted && p.packtype != RESPONSE), f.resp || (accepted && p.packtype == RESPONSE)))
  }

  /** The server's answer to muid m and its waiter. */
  ghost predicate AnswerAfter(c: Client, p: Packet, t: Trace, after: Client, m: U64) {
    var own := p.toUid == c.uid && !p.fromOs && m == p.muid;
    && Get(after.responses, m) == (if own && p.packtype != TRACEROUTE then Some(p) else Get(c.responses, m))
    && Get(after.waiting, m)
       == if own && !(p.packtype == TRACEROUTE && !t.isResponse) && Get(c.waiting, m).Some? then Some(true)
          else Get(c.waiting, m)
  }

  /** All that a handler may change of a session, and when it does. */
  ghost predicate HandledAs(c: Client, p: Packet, t: Trace, after: Client) {
    var traced := p.toUid == c.uid && !p.fromOs && p.packtype == TRACEROUTE && !t.isResponse;
    && after.uid == c.uid && after.lastMuid == c.lastMuid && after.lastCMuids == c.lastCMuids
    && (forall u :: InboxAfter(c, p, after, u))
    && (forall u :: FlagsAfter(c, p, after, u))
    && (after.reqWaiter <==> c.reqWaiter || (p.toUid == c.uid && p.fromOs && p.packtype != RESPONSE))
    && (forall m :: AnswerAfter(c, p, t, after, m))
    && after.traces == c.traces + (if traced then [t.uid] else [])
    && (after.trrWaiter <==> c.trrWaiter || traced)
  }

  lemma ForwardedInbox(c: Client, p: Packet, u: U64)
    requires p.toUid == c.uid && p.fromOs
    ensures InboxAfter(c, p, Forwarded(c, p), u)
  {
    hide Put, Get, Has;
    var box := InboxOf(c, p.fromUid);
    PutGet(c.inboxes, p.fromUid, Filed(box, p), u);
    forall k
      ensures Get(Put(box.responses, p.cmuid, p), k) == if k == p.cmuid then Some(p) else Get(box.responses, k)
    {
      PutGet(box.responses, p.cmuid, p, k);
    }
  }

  lemma ForwardedFlags(c: Client, p: Packet, u: U64)
    requires p.toUid == c.uid && p.fromOs
    ensures FlagsAfter(c, p, Forwarded(c, p), u)
  {
    hide Put, Get, Has, Filed, InboxOf;
    match Get(c.usrWaiters, p.fromUid)
    case Some(f) =>
      PutGet(c.usrWaiters, p.fromUid, if p.packtype != RESPONSE then f.(req := true) else f.(resp := true), u);
    case None =>
  }

  lemma DeliveredAnswer(c: Client, p: Packet, t: Trace, m: U64)
    ensures AnswerAfter(c, p, t, Delivered(c, p, t), m)
  {
    hide Put, IndexOf, Filed, InboxOf;
    PutGet(c.responses, p.muid, p, m);
    PutGet(c.waiting, p.muid, true, m);
  }

  /** What is not accepted forwarded traffic leaves inboxes and user waiters alone. */
  lemma OwnLeavesInboxes(c: Client, p: Packet, t: Trace, u: U64)
    requires !(p.toUid == c.uid && p.fromOs)
    ensures InboxAfter(c, p, Delivered(c, p, t), u) && FlagsAfter(c, p, Delivered(c, p, t), u)
  {
    hide Put, Get, Has, Filed, Forwarded;
  }

  /** The message rules of the handler. */
  lemma DeliveredAs(c: Client, p: Packet, t: Trace)
    ensures HandledAs(c, p, t, Delivered(c, p, t))
  {
    forall u
      ensures InboxAfter(c, p, Delivered(c, p, t), u) && FlagsAfter(c, p, Delivered(c, p, t), u)
    {
      hide Put, Get, Has, Filed, InboxAfter, FlagsAfter, Forwarded, Woken;
      if p.toUid == c.uid && p.fromOs {
        ForwardedInbox(c, p, u);
        ForwardedFlags(c, p, u);
      } else {
        OwnLeavesInboxes(c, p, t, u);
      }
    }
    forall m
      ensures AnswerAfter(c, p, t, Delivered(c, p, t), m)
    {
      DeliveredAnswer(c, p, t, m);
    }
    hide InboxAfter, FlagsAfter, AnswerAfter, Put, Get, Has, Filed, InboxOf;
  }

  /** q was the first request of user i, the first user with any, and it is gone. */
  ghost predicate TakenFrom(before: seq<Entry<U64, Inbox>>, i: int, q: Packet, after: seq<Entry<U64, Inbox>>) {
    && 0 <= i < |before| && before[i].value.requests != [] && q == before[i].value.requests[0]
    && (forall j | 0 <= j < i :: before[j].value.requests == [])
    && after == before[i := Entry(before[i].key, Inbox(before[i].value.requests[1..], before[i].value.responses))]
  }

  /** How a session reads an answer: whatever another user sent is FromUser, and of the server's
      own packets the first four payload bytes are the code. */
  ghost predicate Means(src: Packet, code: Resp) {
    if src.fromUid != 0 then code == FromUser
    else
      var n := if |src.data| >= 4 then Four(src.data) else 0;
      && code != FromUser
      && (code == NoSuchUser <==> n == 101)
      && (code == ForbidenUid <==> n == 102)
      && (code == NoData <==> n == 103)
      && (code == OkStatus <==> n == 200)
      && (code == ServerError <==> n == 500)
  }

  lemma RespMeaning(src: Packet)
    ensures Means(src, RespOf(src))
    ensures forall n: U64 :: Means(src.(cmuid := n), RespOf(src))
  {
    if |src.data| >= 4 { LoadFour(src.data[..4]); }
  }

  // ---- What a handled packet does to the tables of requests ----

  /** The packet is an answer that goes into `responses`. */
  predicate Files(uid: U64, p: Packet) { p.toUid == uid && !p.fromOs && p.packtype != TRACEROUTE }

  /** What the tables of a session say of muid m before and after it has handled a packet. */
  ghost predicate TablesAfter(c: Client, p: Packet, after: Client, m: U64) {
    && Get(after.responses, m) == (if Files(c.uid, p) && m == p.muid then Some(p) else Get(c.responses, m))
    && (Get(after.waiting, m) == Get(c.waiting, m) || (m == p.muid && !p.fromOs))
  }

  /** What a handled packet does to the tables that the tasks use. */
  lemma DeliveredTables(c: Client, p: Packet, t: Trace, m: U64)
    requires Distinct(c.responses) && Distinct(c.waiting)
    ensures Distinct(Delivered(c, p, t).responses) && Distinct(Delivered(c, p, t).waiting)
    ensures Delivered(c, p, t).uid == c.uid && Delivered(c, p, t).lastMuid == c.lastMuid
    ensures TablesAfter(c, p, Delivered(c, p, t), m)
  {
    hide Put, Get, Has, InboxOf, Filed;
    PutGet(c.responses, p.muid, p, m);
    PutGet(c.waiting, p.muid, true, m);
  }

  // ---- Conversation numbers ----

  function Numbering(c: Client, asks: seq<Ask>): Client {
    if asks == [] then c
    else Numbered(Numbering(c, asks[..|asks| - 1]), asks[|asks| - 1].to, asks[|asks| - 1].packtype)
  }

  /** Some earlier request of the run opened a conversation with the user. */
  predicate Opened(asks: seq<Ask>, to: U64) {
    exists k | 0 <= k < |asks| :: asks[k].to == to && asks[k].packtype != RESPONSE
  }

  lemma {:induction false} NumberingKeepsZero(c: Client, asks: seq<Ask>, to: U64)
    requires c.lastCMuids == [] && to != 0
    ensures Distinct(Numbering(c, asks).lastCMuids)
    ensures Get(Numbering(c, asks).lastCMuids, to) == if Opened(asks, to) then Some(0) else None
  {
    if asks != [] {
      var front, last := asks[..|asks| - 1], asks[|asks| - 1];
      NumberingKeepsZero(c, front, to);
      PutGet(Numbering(c, front).lastCMuids, last.to, 0, to);
      hide Put, Get;
      if k :| 0 <= k < |front| && front[k].to == to && front[k].packtype != RESPONSE {
        assert asks[k] == front[k];
      }
      if k :| 0 <= k < |asks| && asks[k].to == to && asks[k].packtype != RESPONSE {
        if k < |front| { assert front[k] == asks[k]; }
      }
    }
  }

  /** The packets of the tasks of a run of requests. */
  function RequestRun(c: Client, asks: seq<Ask>): (r: seq<Option<Packet>>)
    ensures |r| == |asks|
  {
    seq(|asks|, i requires 0 <= i < |asks| => Requested(Numbering(c, asks[..i]), asks[i]))
  }

  /** request() never advances its counter.  In any run of requests of a new session to any
      users, the packet of the first request to a user carries conversation number 0 and that of
      every later one 1; a response carries 0, and is refused when it comes first.  The packet is
      the caller's payload, type, target and trav_fuid under the session's uid. */
  lemma CMuidsOfRun(c: Client, asks: seq<Ask>, i: nat)
    requires c.lastCMuids == [] && i < |asks|
    ensures var a, task, again := asks[i], RequestRun(c, asks)[i], Opened(asks[..i], asks[i].to);
      && (task.None? <==> a.to != 0 && a.packtype == RESPONSE && !again)
      && (task.Some? ==>
            task.value == Packet(a.packtype, false, c.uid, a.to, a.trav, 0, 0,
                                 if a.to != 0 && again && a.packtype != RESPONSE then 1 else 0, a.p.data))
  {
    NumberingUid(c, asks[..i]);
    if asks[i].to != 0 { NumberingKeepsZero(c, asks[..i], asks[i].to); }
  }

  lemma {:induction false} NumberingUid(c: Client, asks: seq<Ask>)
    ensures Numbering(c, asks).uid == c.uid
  {
    if asks != [] {
      NumberingUid(c, asks[..|asks| - 1]);
    }
  }
}
