/** The router in place (dnet/router.c): the growing array of sessions and one turn of a
    runner thread. */
module Router {
  import opened Bytes
  import opened Wrappers
  import opened Codec
  import opened Assoc
  import opened Dispatch
  import opened Relay
  import opened Session

  /** `seed` is what rand gave, `linked` says which states were connected to their server;
      the code keeps neither. */
  class DcnRouter {
    var states: array<DcnSession?>
    var statesN: nat
    var uids: U64
    var isRunning: bool
    ghost const seed: U64
    ghost var linked: seq<bool>

    ghost predicate Valid()
      reads this, states
    {
      && statesN <= states.Length && |linked| == statesN
      && (forall i | 0 <= i < statesN :: states[i] != null)
      && (forall i, j | 0 <= i < j < statesN :: states[i] != states[j])
      && uids == (seed + statesN) % TWO_64
      && (forall i | 0 <= i < statesN && linked[i] :: states[i].cliUid == (seed + i) % TWO_64)
    }

    ghost function Sessions(): (s: seq<DcnSession>)
      reads this, states
      requires Valid()
    {
      seq(statesN, i requires 0 <= i < states.Length && states[i] != null reads this, states => states[i])
    }

    constructor (seed: U64)
      ensures Valid() && Sessions() == [] && this.seed == seed && !isRunning
    {
      Division(seed, 0, seed);
      this.seed := seed;
      states := new DcnSession?[0];
      statesN, uids, isRunning := 0, seed, false;
      linked := [];
    }

    /** router_link: one session for each server, in an array that doubles when it is full.
        `connected` is whether the connection succeeded.  When it did not, the state is
        appended all the same; `raw` is the session its memory happens to hold. */
    method Link(connected: bool, raw: DcnSession) returns (ok: bool)
      requires Valid() && forall i | 0 <= i < statesN :: states[i] != raw
      modifies this, states
      ensures Valid() && isRunning == old(isRunning)
      ensures ok <==> !old(isRunning)
      ensures !ok ==> Sessions() == old(Sessions()) && uids == old(uids)
      ensures ok ==>
        && |Sessions()| == |old(Sessions())| + 1 && Sessions()[..|old(Sessions())|] == old(Sessions())
        && linked == old(linked) + [connected]
        && uids == Add64(old(uids), 1)
      ensures ok && !connected ==> Sessions()[statesN - 1] == raw
      ensures ok && connected ==>
        && fresh(Sessions()[statesN - 1])
        && Sessions()[statesN - 1].View() == Client(old(uids), 1, [], [], [], [], [], false, [], false)
        && Sessions()[statesN - 1].writeq == []
      ensures old(statesN) < old(states.Length) ==> states == old(states)
      ensures ok && old(statesN) == old(states.Length) ==>
        states.Length == if old(statesN) == 0 then 1 else 2 * old(statesN)
    {
      if isRunning {
        return false;
      }
      ghost var before := Sessions();
      assert raw !in before;
      Grow();
      assert forall i | 0 <= i < statesN :: states[i] == before[i] by {
        assert forall i | 0 <= i < statesN :: Sessions()[i] == states[i];
      }
      var state := raw;
      if connected {
        state := new DcnSession(uids);
      }
      Append(state, connected);
      ok := true;
    }

    /** Double the array when it is full. */
    method Grow()
      requires Valid()
      modifies this`states
      ensures Valid() && Sessions() == old(Sessions()) && statesN < states.Length
      ensures old(statesN) < old(states.Length) ==> states == old(states)
      ensures states == old(states) || fresh(states)
      ensures old(statesN) == old(states.Length) ==> states.Length == if statesN == 0 then 1 else 2 * statesN
    {
      if statesN == states.Length {
        var newCap := if states.Length == 0 then 1 else states.Length * 2;
        var grown := new DcnSession?[newCap](_ => null);
        forall i | 0 <= i < statesN {
          grown[i] := states[i];
        }
        states := grown;
      }
    }

    /** Store a state behind the others and count up. */
    method Append(state: DcnSession, connected: bool)
      requires Valid() && statesN < states.Length && forall i | 0 <= i < statesN :: states[i] != state
      requires connected ==> state.cliUid == uids
      modifies this`uids, this`statesN, this`linked, states
      ensures Valid() && statesN == old(statesN) + 1
      ensures Sessions() == old(Sessions()) + [state]
      ensures linked == old(linked) + [connected] && uids == Add64(old(uids), 1)
    {
      WrapOnce(seed + statesN);
      ghost var before := Sessions();
      uids := Add64(uids, 1);
      states[statesN] := state;
      statesN := statesN + 1;
      linked := linked + [connected];
      assert forall i | 0 <= i < statesN :: Sessions()[i] == (before + [state])[i];
    }

    /** Any two connected links of a router have different uids, as long as it has no more than
        2^64 of them. */
    lemma LinkUidsDiffer(i: nat, j: nat)
      requires Valid() && i < j < statesN <= TWO_64 && linked[i] && linked[j]
      ensures states[i].cliUid != states[j].cliUid
    {
      WrapSame(seed + i, seed + j);
    }

    /** request() and the one round of dcn_request that follows it, on one link. */
    method Reissued(target: DcnSession, req: Packet)
      requires req.packtype == SIG_BROADCAST
      modifies target`lastMuid, target`writeq, target`cndResponses, target`lastCMuids
      ensures target.lastMuid == Add64(old(target.lastMuid), 1)
      ensures target.writeq == old(target.writeq) + [Encode(Reissue(req, target.cliUid).(muid := old(target.lastMuid)))]
    {
      hide Encode, Put;
      var orig := if req.travFuid == 0 then req.fromUid else req.travFuid;
      var task := target.Request(req, 0, orig, req.packtype);
      var _ := target.DcnRequest(task.value, 0);
    }

    /** The forwarding loop of __router_runner. */
    method ForwardAll(my: nat, req: Packet)
      requires Valid() && my < statesN && req.packtype == SIG_BROADCAST
      modifies Sessions()
      ensures forall i | 0 <= i < statesN && i != my ::
        && states[i].lastMuid == Add64(old(states[i].lastMuid), 1)
        && states[i].writeq == old(states[i].writeq)
             + [Encode(Reissue(req, states[i].cliUid).(muid := old(states[i].lastMuid)))]
      ensures states[my].lastMuid == old(states[my].lastMuid) && states[my].writeq == old(states[my].writeq)
    {
      hide Encode, Reissue;
      var i := 0;
      while i < statesN
        invariant i <= statesN
        invariant forall k | 0 <= k < i && k != my ::
          && states[k].lastMuid == Add64(old(states[k].lastMuid), 1)
          && states[k].writeq == old(states[k].writeq)
               + [Encode(Reissue(req, states[k].cliUid).(muid := old(states[k].lastMuid)))]
        invariant forall k | 0 <= k < statesN && (k >= i || k == my) ::
          states[k].lastMuid == old(states[k].lastMuid) && states[k].writeq == old(states[k].writeq)
      {
        if i != my {
          assert states[i] in Sessions() by { assert Sessions()[i] == states[i]; }
          Reissued(states[i], req);
        }
        i := i + 1;
      }
    }

    /** One turn of a runner whose session has a request waiting: take it and, if it is a
        flooded one, send it on over every other link. */
    method Turn(my: nat) returns (req: Option<Packet>)
      requires Valid() && my < statesN
      requires states[my].reqWaiter && Distinct(states[my].usrResponses)
      modifies Sessions()
      ensures req == old(MiscPacket(states[my].View()))
      ensures states[my].writeq == old(states[my].writeq)
      ensures forall i | 0 <= i < statesN && i != my ::
        states[i].writeq == old(states[i].writeq)
          + (if req.Some? && req.value.packtype == SIG_BROADCAST
             then [Encode(Reissue(req.value, states[i].cliUid).(muid := old(states[i].lastMuid)))] else [])
    {
      hide Encode, Reissue, FirstAsking;
      assert states[my] in Sessions() by { assert Sessions()[my] == states[my]; }
      req := states[my].MiscRequest();
      if req.None? || req.value.packtype != SIG_BROADCAST {
        return;
      }
      ForwardAll(my, req.value);
    }
  }

  /** request() with target 0 builds exactly the packet that Reissue describes. */
  lemma RequestReissues(c: Client, req: Packet)
    ensures Requested(c, Ask(req, 0, Origin(req), req.packtype)) == Some(Reissue(req, c.uid))
    ensures Reissue(req, c.uid)
      == Packet(req.packtype, false, c.uid, 0, if req.travFuid == 0 then req.fromUid else req.travFuid, 0, 0, 0, req.data)
    ensures Stamped(c, Reissue(req, c.uid), 0) == Reissue(req, c.uid).(muid := c.lastMuid)
  {
  }

  /** The server accepts a reissued flood, so the retry loop runs once, if and only if the
      session's uid is not zero; a session with uid zero is refused. */
  lemma FloodAcceptedIff<C>(reg: Registry<C>, req: Packet, uid: U64)
    requires req.packtype == SIG_BROADCAST
    ensures Code(reg, Reissue(req, uid)) == OK <==> uid != 0
    ensures Code(reg, Reissue(req, uid)) == FORBIDDEN <==> uid == 0
  {
  }
}
