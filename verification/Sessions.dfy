/** The live sessions as objects: one per connection, each with its own control budget. */
module LiveSessions {
  import opened Prelude
  import opened Identity
  import opened Proto
  import opened Buckets
  import opened Hub

  /** One connection's protocol state. */
  class Session {
    var compatible: bool
    var minor: i32
    var subscribed: bool
    var operator: bool
    var strikes: nat
    var muted: bool
    const control: TokenBucket

    function View(): SessionState
      reads this, control
    {
      SessionState(compatible, minor, subscribed, operator, strikes, muted, control.View())
    }

    constructor (now: millis)
      ensures View() == NewSession(now) && fresh(control)
    {
      compatible := false;
      minor := -1;
      subscribed := false;
      operator := false;
      strikes := 0;
      muted := false;
      control := new TokenBucket(CONTROL_REQUEST_BURST, CONTROL_REQUESTS_PER_MINUTE, now);
    }

    /** Records a malformed payload, muting at the third; says whether this one muted. */
    method NoteMalformed() returns (newlyMuted: bool)
      modifies this`strikes, this`muted
      ensures View() == RecordMalformed(old(View()))
      ensures newlyMuted == (!old(muted) && muted)
    {
      var wasMuted := muted;
      strikes := Min(strikes + 1, MAX_MALFORMED_STRIKES);
      muted := strikes >= MAX_MALFORMED_STRIKES;
      return !wasMuted && muted;
    }

    method Accept(major: i32, minor: i32, operator: bool)
      modifies this
      ensures View() == AcceptHello(old(View()), major, minor, operator)
    {
      subscribed := false;
      compatible := major == PROTO_MAJOR && minor >= 0;
      this.minor := if minor < 0 then 0 else Min(minor, PROTO_MINOR);
      this.operator := operator;
    }

    method Charge(now: millis) returns (ok: bool)
      modifies control
      ensures (View(), ok) == ChargeControl(old(View()), now)
    {
      ok := control.Consume(now);
    }
  }

  /** No two connections share their state or their budget. */
  ghost predicate Apart(peers: map<Id, Session>) {
    forall a, b :: a in peers && b in peers && a != b ==> peers[a] != peers[b] && peers[a].control != peers[b].control
  }

  ghost function ReprOf(peers: map<Id, Session>): set<object> {
    (set id | id in peers :: peers[id]) + (set id | id in peers :: peers[id].control)
  }

  ghost function ViewOf(peers: map<Id, Session>): Hub.Sessions
    reads ReprOf(peers)
  {
    map id | id in peers :: peers[id].View()
  }

  /** A table with one more session that nobody shares. */
  lemma Joined(peers: map<Id, Session>, before: Hub.Sessions, id: Id, session: Session)
    requires Apart(peers) && id !in peers && before.Keys == peers.Keys
    requires forall other :: other in peers ==> peers[other].View() == before[other]
    requires forall other :: other in peers ==> peers[other] != session && peers[other].control != session.control
    ensures Apart(peers[id := session]) && ViewOf(peers[id := session]) == before[id := session.View()]
  {
  }

  lemma Grown(peers: map<Id, Session>, id: Id, session: Session)
    requires id !in peers
    ensures ReprOf(peers[id := session]) == ReprOf(peers) + {session, session.control}
  {
    var more := peers[id := session];
    assert more[id] == session;
    assert forall other :: other in peers ==> more[other] == peers[other];
  }

  /** The sessions with every subscription but these marked stale. */
  ghost function Stale(sessions: Hub.Sessions, rest: set<Id>): Hub.Sessions {
    map id | id in sessions :: if id in rest then sessions[id] else sessions[id].(subscribed := false)
  }

  lemma StaleStep(sessions: Hub.Sessions, rest: set<Id>, id: Id)
    requires id in rest && rest <= sessions.Keys
    ensures Hub.SetSubscribed(Stale(sessions, rest), id, false) == Stale(sessions, rest - {id})
  {
  }

  /** Every live session, by player. */
  class Sessions {
    var peers: map<Id, Session>

    ghost function Repr(): set<object>
      reads this
    {
      ReprOf(peers)
    }

    ghost predicate Valid()
      reads this
    {
      Apart(peers)
    }

    ghost function View(): Hub.Sessions
      reads this, Repr()
    {
      ViewOf(peers)
    }

    constructor ()
      ensures Valid() && View() == map[] && Repr() == {}
    {
      peers := map[];
    }

    /** When one session has moved and no other has, the table has that one entry rewritten. */
    lemma {:induction false} Rewritten(id: Id, before: Hub.Sessions)
      requires id in peers && before.Keys == peers.Keys
      requires forall other :: other in peers && other != id ==> before[other] == peers[other].View()
      ensures View() == before[id := peers[id].View()]
    {
    }

    /** Opens a session for a peer that has none. */
    method Open(id: Id, now: millis)
      requires Valid() && id !in peers
      modifies this
      ensures Valid() && fresh(Repr() - old(Repr())) && id in peers && View() == old(View())[id := NewSession(now)]
    {
      hide NewSession, ReprOf;
      ghost var before := View();
      var created := new Session(now);
      assert forall other :: other in peers ==> peers[other].View() == before[other];
      Joined(peers, before, id, created);
      Grown(peers, id, created);
      hide ViewOf, Apart;
      NotASession(peers[id := created]);
      peers := peers[id := created];
    }

    lemma {:induction false} NotASession(peers: map<Id, Session>)
      ensures this !in ReprOf(peers)
    {
    }

    lemma {:induction false} SameSize()
      ensures |View()| == |peers| && View().Keys == peers.Keys
    {
      assert View().Keys == peers.Keys;
      assert |View()| == |View().Keys| && |peers| == |peers.Keys|;
    }

    /** The session for a peer, created if there is room: refusing a new key is the safe answer. */
    method Ensure(id: Id, now: millis) returns (session: Session?)
      requires Valid()
      modifies this
      ensures Valid() && fresh(Repr() - old(Repr()))
      ensures session == null <==> Hub.Ensure(old(View()), id, now).None?
      ensures session == null ==> View() == old(View())
      ensures session != null ==> id in peers && session == peers[id] && View() == Hub.Ensure(old(View()), id, now).value
    {
      hide NewSession, ViewOf, Apart;
      SameSize();
      if id !in peers && |peers| >= MAX_TRACKED_SESSIONS {
        return null;
      }
      if id !in peers {
        Open(id, now);
      }
      return peers[id];
    }

    /** Applies a greeting. */
    method Hello(id: Id, major: i32, minor: i32, operator: bool, now: millis) returns (negotiated: Option<i32>)
      requires Valid()
      modifies this, Repr()
      ensures Valid() && fresh(Repr() - old(Repr()))
      ensures (View(), negotiated) == Greet(old(View()), id, major, minor, operator, now)
    {
      hide TryConsume, NewSession;
      var session := Ensure(id, now);
      if session == null {
        return None;
      }
      if session.muted {
        return None;
      }
      ghost var before := View();
      var ok := session.Charge(now);
      Rewritten(id, before);
      if !ok {
        return None;
      }
      session.Accept(major, minor, operator);
      Rewritten(id, before);
      return Some(EffectiveMinor(session.View()));
    }

    /** Charges a peer's control budget; a peer without a session has none. */
    method Charge(id: Id, now: millis) returns (ok: bool)
      requires Valid()
      modifies Repr()
      ensures Valid() && peers == old(peers) && (View(), ok) == Hub.Charge(old(View()), id, now)
    {
      hide TryConsume;
      if id !in peers {
        return false;
      }
      ghost var before := View();
      ok := peers[id].Charge(now);
      Rewritten(id, before);
    }

    /** Counts a malformed payload against a peer; a peer without a session has nothing to strike. */
    method Strike(id: Id)
      requires Valid()
      modifies Repr()
      ensures Valid() && peers == old(peers)
      ensures View() == var before := old(View()); if id in before then before[id := RecordMalformed(before[id])] else before
    {
      hide RecordMalformed;
      if id in peers {
        ghost var before := View();
        var _ := peers[id].NoteMalformed();
        Rewritten(id, before);
      }
    }

    method SetOperator(id: Id, operator: bool)
      requires Valid()
      modifies Repr()
      ensures Valid() && peers == old(peers) && View() == Hub.SetOperator(old(View()), id, operator)
    {
      if id in peers {
        ghost var before := View();
        peers[id].operator := operator;
        Rewritten(id, before);
      }
    }

    method SetSubscribed(id: Id, subscribed: bool)
      requires Valid()
      modifies Repr()
      ensures Valid() && peers == old(peers) && View() == Hub.SetSubscribed(old(View()), id, subscribed)
    {
      if id in peers {
        ghost var before := View();
        peers[id].subscribed := subscribed;
        Rewritten(id, before);
      }
    }

    /** Drops a peer's session. */
    method Remove(id: Id)
      requires Valid()
      modifies this
      ensures Valid() && View() == old(View()) - {id} && fresh(Repr() - old(Repr()))
    {
      peers := peers - {id};
    }

    method Clear()
      requires Valid()
      modifies this
      ensures Valid() && View() == map[] && fresh(Repr() - old(Repr()))
    {
      peers := map[];
    }

    /** Records a live permission change, saying whether it moved. */
    method Refresh(id: Id, operator: bool) returns (moved: bool)
      requires Valid()
      modifies Repr()
      ensures Valid() && peers == old(peers) && (View(), moved) == RefreshOperator(old(View()), id, operator)
    {
      if id !in peers || !IsCompatible(peers[id].View()) || peers[id].operator == operator {
        return false;
      }
      SetOperator(id, operator);
      return true;
    }

    /** Marks every subscription stale, one session at a time. */
    method ClearAllSubscriptions()
      requires Valid()
      modifies Repr()
      ensures Valid() && peers == old(peers) && View() == ClearSubscriptions(old(View()))
    {
      hide ReprOf, ViewOf, Apart;
      ghost var before := View();
      SameSize();
      var rest := peers.Keys;
      while rest != {}
        invariant Valid() && rest <= peers.Keys && peers == old(peers) && before.Keys == peers.Keys
        invariant View() == Stale(before, rest)
        decreases |rest|
      {
        var id :| id in rest;
        SetSubscribed(id, false);
        StaleStep(before, rest, id);
        rest := rest - {id};
      }
    }

    /** The peers that should receive deltas, each with the minor its frames are written at. */
    function Recipients(): (r: map<Id, i32>)
      requires Valid()
      reads this, Repr()
      ensures r == Subscribers(View())
    {
      map id | id in peers && IsSubscribed(peers[id].View()) :: EffectiveMinor(peers[id].View())
    }

    /** The peers that completed a compatible handshake. */
    function Compatible(): (r: set<Id>)
      requires Valid()
      reads this, Repr()
      ensures r == CompatiblePeers(View())
    {
      set id | id in peers && IsCompatible(peers[id].View())
    }
  }
}
