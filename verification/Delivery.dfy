/**
  Nothing about the catalog is lost to encoding: over every run each snapshot and each change handed to
  the network, or queued for it, encodes at every minor and stays under the send cap.
 */
module Delivery {
  import opened Prelude
  import opened Identity
  import opened Model
  import opened Wire
  import opened Proto
  import opened Frames
  import opened Catalogs
  import opened Buckets
  import opened Players
  import opened Documents
  import opened DocumentSize
  import opened Persistence
  import opened Mutations
  import opened MutationLaws
  import opened Hub
  import opened HubLaws
  import opened Runs
  import opened Convergence

  /** A frame about the catalog whose points are all ones the file could hold. */
  ghost predicate Carries(frame: Outbound) {
    match frame
    case Snapshot(_, _, ws) => |ws| <= MAX_SNAPSHOT_WAYPOINTS && GoodPoints(ws)
    case Upsert(_, w) => GoodPoint(w)
    case _ => true
  }

  predicate AboutCatalog(frame: Outbound) {
    frame.Snapshot? || frame.Upsert? || frame.Remove?
  }

  lemma GoodIsStorable(w: Waypoint)
    requires GoodPoint(w)
    ensures Storable(w)
  {
    hide Settled, ValidPublisherName, Trim;
  }

  /** Such a frame encodes, whatever the minor, and fits the send cap. */
  lemma CarriedIsSendable(frame: Outbound, minor: i32)
    requires Carries(frame) && AboutCatalog(frame)
    ensures OutboundFits(frame, minor) && |EncOutbound(frame, minor)| <= 1024 * 1024
  {
    hide GoodPoint, Storable, EncPoint, EncPoints, PointFits, EncI64, EncId;
    match frame
    case Snapshot(r, operator, ws) =>
      forall k | 0 <= k < |ws|
        ensures Storable(ws[k])
      {
        GoodIsStorable(ws[k]);
      }
      SnapshotSendable(r, operator, ws, minor);
    case Upsert(r, w) =>
      GoodIsStorable(w);
      StorableFits(w, minor);
      Frames.EntryLength(w, minor, []);
      assert |EncI64(r)| == 8 by { RevisionWidth(r); }
    case Remove(r, id) => assert |EncI64(r)| == 8 && |EncId(id)| == 16 by { RevisionWidth(r); IdWidth(id); }
  }

  lemma RevisionWidth(r: i64)
    ensures |EncI64(r)| == 8
  {
  }

  lemma IdWidth(id: Id)
    ensures |EncId(id)| == 16
  {
  }

  ghost predicate AllCarry(w: World) {
    && (forall frame :: frame in w.emitted ==> Carries(frame))
    && (forall k :: 0 <= k < |w.hub.pending| ==> Carries(w.hub.pending[k]))
  }

  lemma ServiceGood(s: ServiceState)
    requires ServiceInvariant(s)
    ensures GoodPoints(s.catalog.points) && |s.catalog.points| <= MAX_SNAPSHOT_WAYPOINTS
  {
    hide GoodPoint, ValidCatalog, ValidPlayers, AllTruthful, SoundCatalog, SmallIcons;
    GoodAndSound(s.catalog);
  }

  /** What a change broadcasts is a point the catalog could take. */
  lemma BroadcastCarries(writer: Writer, h: HubState, peer: Peer, payload: seq<byte>, now: millis, host: Host)
    requires Reachable(writer, h)
    ensures var action := Handle(writer, h, peer, payload, now, host).1;
      action.Mutation? && action.broadcast.Some? ==> Carries(action.broadcast.value)
  {
    hide HubInvariant, GoodFile, OnDisk, ServiceInvariant, Handle, Perform, DecodeInbound, Plan, CanSave, GoodPoint,
      GoodPoints, SmallRequest, ErrorCode, Subscribers, Content;
    HandleService(writer, h, peer, payload, now, host);
    if Performs(h, peer, payload) && Fresh(Performed(writer, h, peer, payload, host).result) {
      var s, r := h.service.value, RequestOf(h, peer, payload);
      DecodedIsSmall(payload, SessionMinor(h.sessions, peer.id));
      MutateCases(writer, s, h.file, ActorOf(peer), r, host);
      ServiceGood(s);
      if Plan(s, ActorOf(peer), r, host).value.delta.Upserted? {
        PlannedPointGood(s, ActorOf(peer), r, host);
      }
    }
  }

  lemma PayloadCarries(writer: Writer, h: HubState, peer: Peer, payload: seq<byte>, now: millis, host: Host)
    requires Reachable(writer, h)
    ensures forall frame :: frame in FramesOf(Handle(writer, h, peer, payload, now, host).1) ==> Carries(frame)
  {
    hide HubInvariant, GoodFile, OnDisk, Handle, Carries, ServiceInvariant, Perform, Performs, ErrorCode, Subscribers;
    var action := Handle(writer, h, peer, payload, now, host).1;
    RepliesShowTheCatalog(writer, h, peer, payload, now, host);
    BroadcastCarries(writer, h, peer, payload, now, host);
    HandleService(writer, h, peer, payload, now, host);
    forall frame | frame in FramesOf(action)
      ensures Carries(frame)
    {
      if frame.Status? || frame.Outcome? {
        OthersCarry(frame);
      } else if action.Reply? {
        assert SnapshotOf(h, frame);
        ServiceGood(h.service.value);
        SnapshotCarries(frame);
      }
    }
  }

  lemma OthersCarry(frame: Outbound)
    requires !frame.Snapshot? && !frame.Upsert?
    ensures Carries(frame)
  {
  }

  lemma SnapshotCarries(frame: Outbound)
    requires frame.Snapshot? && GoodPoints(frame.waypoints) && |frame.waypoints| <= MAX_SNAPSHOT_WAYPOINTS
    ensures Carries(frame)
  {
    hide GoodPoints;
  }

  lemma ClearCarries(writer: Writer, h: HubState, writable: bool)
    requires forall k :: 0 <= k < |h.pending| ==> Carries(h.pending[k])
    ensures var pending := Clear(writer, h, writable).0.pending; forall k :: 0 <= k < |pending| ==> Carries(pending[k])
  {
    hide Saved, Carries;
    var pending := Clear(writer, h, writable).0.pending;
    forall k | 0 <= k < |pending|
      ensures Carries(pending[k])
    {
      if pending != h.pending {
        OthersCarry(pending[k]);
      }
    }
  }

  lemma StepCarries(writer: Writer, w: World, e: Event)
    requires Reachable(writer, w.hub) && AllCarry(w)
    ensures AllCarry(StepWorld(writer, w, e))
  {
    hide Reachable, Carries, Handle, Clear, Configure, RefreshAll, OnDisk, PointMap, Record, DurableDeltas,
      DurableRequests,
      StepStreams, Perform, Performs;
    match e
    case Arrives(peer, payload, now, host) =>
      PayloadCarries(writer, w.hub, peer, payload, now, host);
      HandleService(writer, w.hub, peer, payload, now, host);
    case Clears(writable) => ClearCarries(writer, w.hub, writable);
    case Configures(settings, movable, writable) => ConfigureQueuesNothing(writer, w.hub, settings, movable, writable);
    case _ =>
  }

  lemma StartCarries(writer: Writer, file: File)
    ensures AllCarry(Start(writer, file))
  {
    hide OnDisk, PointMap;
  }

  lemma {:induction false} RunCarries(writer: Writer, file: File, events: seq<Event>)
    requires Faithful(writer.floats) && GoodFile(writer, file)
    ensures AllCarry(Run(writer, file, events))
  {
    hide Faithful, GoodFile, Reachable, StepWorld, AllCarry;
    if events == [] {
      StartCarries(writer, file);
    } else {
      RunCarries(writer, file, events[..|events| - 1]);
      RunReachable(writer, file, events[..|events| - 1]);
      StepCarries(writer, Run(writer, file, events[..|events| - 1]), events[|events| - 1]);
    }
  }

  /**
    Over every run, every snapshot, point and removal handed to the network or queued for it can be
    sent: it encodes at every minor and is no longer than the send cap.
   */
  lemma EverythingIsSendable(writer: Writer, file: File, events: seq<Event>, frame: Outbound, minor: i32)
    requires Faithful(writer.floats) && GoodFile(writer, file)
    requires var w := Run(writer, file, events); AboutCatalog(frame) && (frame in w.emitted || frame in w.hub.pending)
    ensures OutboundFits(frame, minor) && |EncOutbound(frame, minor)| <= 1024 * 1024
  {
    hide Faithful, GoodFile, Run, Carries, OutboundFits, EncOutbound;
    RunCarries(writer, file, events);
    CarriedIsSendable(frame, minor);
  }

  /** What is sent for these frames; a frame that does not encode is not sent. */
  function PayloadsOf(frames: seq<Outbound>, minor: i32): (payloads: seq<seq<byte>>)
    ensures |payloads| == |frames|
    ensures forall k :: 0 <= k < |frames| ==> OutboundFits(frames[k], minor) ==> payloads[k] == EncOutbound(frames[k], minor)
  {
    seq(|frames|, k requires 0 <= k < |frames| =>
      if OutboundFits(frames[k], minor) then EncOutbound(frames[k], minor) else [])
  }

  /**
    So a peer needs no luck with encoding: whatever frames about the catalog it is sent, in any order,
    any number of times, after a snapshot, it converges on reading their payloads.
   */
  lemma ConvergesOnFrames(
    writer: Writer, file: File, events: seq<Event>, peer: Replica, first: Outbound, frames: seq<Outbound>, minor: i32)
    requires Faithful(writer.floats) && GoodFile(writer, file)
    requires first.Snapshot? && forall k :: 0 <= k < |frames| ==> AboutCatalog(frames[k])
    requires forall k :: 0 <= k < |[first] + frames| ==> ([first] + frames)[k] in Run(writer, file, events).emitted
    ensures Converged(writer, Run(writer, file, events), ReceiveAll(peer, PayloadsOf([first] + frames, minor), minor), minor)
  {
    hide Faithful, GoodFile, Run, OnDisk, OutboundFits, EncOutbound, ReceiveBytes, PayloadsOf, AboutCatalog, Converged;
    var all, w := [first] + frames, Run(writer, file, events);
    assert AboutCatalog(first) by { SnapshotIsAbout(first); }
    forall k | 0 <= k < |all|
      ensures OutboundFits(all[k], minor)
    {
      assert k > 0 ==> all[k] == frames[k - 1];
      EverythingIsSendable(writer, file, events, all[k], minor);
    }
    var payloads := PayloadsOf(all, minor);
    var rest := payloads[1..];
    assert all[0] == first;
    forall k | 0 <= k < |rest|
      ensures WasSent(w, rest[k], minor)
    {
      assert IsPayloadOf(rest[k], all[k + 1], minor);
    }
    assert payloads == [EncOutbound(first, minor)] + rest;
    ReceiveFirst(peer, EncOutbound(first, minor), rest, minor);
    Converges(writer, file, events, peer, first, rest, minor);
  }

  lemma SnapshotIsAbout(frame: Outbound)
    requires frame.Snapshot?
    ensures AboutCatalog(frame)
  {
  }

  lemma {:induction false} ReceiveFirst(peer: Replica, first: seq<byte>, rest: seq<seq<byte>>, minor: i32)
    ensures ReceiveAll(peer, [first] + rest, minor) == ReceiveAll(ReceiveBytes(peer, first, minor), rest, minor)
  {
    hide ReceiveBytes;
    if rest == [] {
      assert [first] + rest == [first] && [first][..0] == [];
      assert ReceiveAll(peer, [], minor) == peer;
    } else {
      var n := |rest| - 1;
      assert ([first] + rest)[..n + 1] == [first] + rest[..n];
      ReceiveFirst(peer, first, rest[..n], minor);
    }
  }
}
