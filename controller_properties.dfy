/** What a reconciliation pass promises, stated on the pass functions of TorrentController (which
    the reconciler's methods are proved to compute). */
module TorrentControllerProperties {
  import opened Wrappers
  import MagnetHash
  import opened QBittorrent
  import opened Conditions
  import opened Finalizers
  import opened TorrentApi
  import opened TorrentController

  /** A live Torrent that already carries the finalizer: the pass goes on to synchronise. */
  predicate Live(t: TorrentValue) {
    !t.MarkedForDeletion() && TorrentFinalizer in t.finalizers
  }

  /** Available is set with `reason` and `message` and there is no Degraded entry. */
  predicate AvailableWith(conds: seq<Condition>, reason: string, message: string) {
    && IsTrue(conds, TypeAvailable)
    && FindStatusCondition(conds, TypeAvailable).value.reason == reason
    && FindStatusCondition(conds, TypeAvailable).value.message == message
    && FindStatusCondition(conds, TypeDegraded).None?
  }

  /** Degraded is set with `reason` and `message` and there is no Available entry. */
  predicate DegradedWith(conds: seq<Condition>, reason: string, message: string) {
    && IsTrue(conds, TypeDegraded)
    && FindStatusCondition(conds, TypeDegraded).value.reason == reason
    && FindStatusCondition(conds, TypeDegraded).value.message == message
    && FindStatusCondition(conds, TypeAvailable).None?
  }

  /** The status fields other than the conditions. */
  predicate SameObserved(s: TorrentStatus, s': TorrentStatus) {
    s'.(conditions := s.conditions) == s
  }

  lemma DegradeSets(s: TorrentStatus, reason: string, message: string, now: int)
    ensures DegradedWith(Degrade(s, reason, message, now).conditions, reason, message)
    ensures SameObserved(s, Degrade(s, reason, message, now))
  {
    DegradedSetter(s.conditions, reason, message, now);
  }

  lemma MakeAvailableSets(s: TorrentStatus, reason: string, message: string, now: int)
    ensures AvailableWith(MakeAvailable(s, reason, message, now).conditions, reason, message)
    ensures SameObserved(s, MakeAvailable(s, reason, message, now))
  {
    AvailableSetter(s.conditions, reason, message, now);
  }

  /** A fetch that finds nothing ends the pass quietly; any other fetch error is returned; neither
      touches the store or qBittorrent. */
  lemma FetchFailureEndsPass(t: TorrentValue, fetch: Fetch, base: string, sid: string,
                             remote: RemoteReplies, store: StoreReplies, now: int)
    requires !fetch.Found?
    ensures var o := ReconcileOutcome(t, fetch, base, sid, remote, store, now);
      && o.torrent == t && o.result == NoRequeue && o.writes == [] && o.requests == []
      && (fetch.NotFound? ==> o.err.None?)
      && (fetch.FetchFailed? ==> o.err == Some(StoreError(fetch.cause)))
  {
  }

  /** A Torrent marked for deletion is deleted whether or not it carries the finalizer: the only
      remote call is a delete of the observed hash with its files, and none when no hash was
      observed; no finalizer is ever added on this path. */
  lemma DeletionComesFirst(t: TorrentValue, base: string, sid: string,
                           remote: RemoteReplies, store: StoreReplies, now: int)
    requires t.MarkedForDeletion()
    ensures var o := ReconcileOutcome(t, Found, base, sid, remote, store, now);
      && o == DeletionOutcome(t, base, sid, remote.delete, store.update, now)
      && o.requests == (if t.status.hash == "" then [] else [DeleteRequest(base, sid, t.status.hash, true)])
      && (forall f :: f in o.torrent.finalizers ==> f in t.finalizers)
      && o.torrent.spec == t.spec && o.torrent.deletionTimestamp == t.deletionTimestamp
  {
  }

  /** Every delete the controller issues asks qBittorrent to delete the files too. */
  lemma DeleteRemovesFiles(t: TorrentValue, base: string, sid: string, reply: Reply,
                           updateErr: Option<string>, now: int)
    ensures forall r :: r in DeletionOutcome(t, base, sid, reply, updateErr, now).requests ==>
      r.verb == Post && r.url == base + DeletePath
      && FormValue(r.form, "hashes") == Some(t.status.hash) && FormValue(r.form, "deleteFiles") == Some("true")
  {
  }

  /** With no observed hash the finalizer is simply removed: no remote call, the status is left
      alone, and the store's answer to the update is the pass's answer. */
  lemma EmptyHashReleases(t: TorrentValue, base: string, sid: string,
                          remote: RemoteReplies, store: StoreReplies, now: int)
    requires t.MarkedForDeletion() && t.status.hash == ""
    ensures var o := ReconcileOutcome(t, Found, base, sid, remote, store, now);
      && o.requests == []
      && TorrentFinalizer !in o.torrent.finalizers
      && o.torrent.status == t.status
      && o.result == NoRequeue
      && (o.err.None? <==> store.update.None?)
      && o.writes == [ObjectWrite(o.torrent.finalizers, t.spec)]
  {
  }

  /** The deletion guard: the finalizer survives a deletion pass exactly when a delete was issued
      and failed; in that case the Torrent is Degraded with the client's message and the pass is
      retried after 10 seconds without an error; otherwise only the finalizer is removed. */
  lemma DeletionGuard(t: TorrentValue, base: string, sid: string,
                      remote: RemoteReplies, store: StoreReplies, now: int)
    requires t.MarkedForDeletion() && TorrentFinalizer in t.finalizers
    ensures var o := ReconcileOutcome(t, Found, base, sid, remote, store, now);
      var failed := t.status.hash != "" && ReplyError(DeleteOp, remote.delete).Some?;
      && (TorrentFinalizer in o.torrent.finalizers <==> failed)
      && (failed ==>
            && o.torrent.finalizers == t.finalizers
            && DegradedWith(o.torrent.status.conditions, FailedToDelete, ReplyError(DeleteOp, remote.delete).value.Error())
            && SameObserved(t.status, o.torrent.status)
            && o.result == ReconcileResult(RetryDelay) && o.err.None?
            && o.writes == [StatusWrite(o.torrent.status)])
      && (!failed ==>
            && (forall f :: f != TorrentFinalizer ==> (f in o.torrent.finalizers <==> f in t.finalizers))
            && o.torrent.status == t.status
            && o.result == NoRequeue && o.err == StoreErr(store.update))
  {
    if t.status.hash != "" && ReplyError(DeleteOp, remote.delete).Some? {
      DegradeSets(t.status, FailedToDelete, ReplyError(DeleteOp, remote.delete).value.Error(), now);
    }
  }

  /** A live Torrent without the finalizer only gets it: no hash extraction, no remote call, no
      status change, and a requeue after one second unless the update failed. */
  lemma FinalizerAddedFirst(t: TorrentValue, base: string, sid: string,
                            remote: RemoteReplies, store: StoreReplies, now: int)
    requires !t.MarkedForDeletion() && TorrentFinalizer !in t.finalizers
    ensures var o := ReconcileOutcome(t, Found, base, sid, remote, store, now);
      && o.requests == []
      && o.torrent == t.(finalizers := t.finalizers + [TorrentFinalizer])
      && o.writes == [ObjectWrite(o.torrent.finalizers, t.spec)]
      && (store.update.None? ==> o.result == ReconcileResult(FinalizerDelay) && o.err.None?)
      && (store.update.Some? ==> o.result == NoRequeue && o.err == Some(StoreError(store.update.value)))
  {
  }

  /** A malformed magnet URI is returned as the pass's error before any remote call or write. */
  lemma MalformedURIStopsPass(t: TorrentValue, base: string, sid: string,
                              remote: RemoteReplies, store: StoreReplies, now: int)
    requires Live(t) && MagnetHash.GetTorrentHash(t.spec.magnetURI).Failure?
    ensures ReconcileOutcome(t, Found, base, sid, remote, store, now)
      == Outcome(t, NoRequeue, Some(MalformedURI(MagnetHash.GetTorrentHash(t.spec.magnetURI).error)), [], [])
  {
  }

  /** A failed lookup marks the Torrent Degraded with the lookup's message and retries after 10
      seconds; nothing is added. */
  lemma LookupFailureDegrades(t: TorrentValue, base: string, sid: string,
                              remote: RemoteReplies, store: StoreReplies, now: int)
    requires Live(t) && MagnetHash.GetTorrentHash(t.spec.magnetURI).Success?
    requires LookupResult(MagnetHash.GetTorrentHash(t.spec.magnetURI).value, remote.list).Failure?
    ensures var o := ReconcileOutcome(t, Found, base, sid, remote, store, now);
      var e := LookupResult(MagnetHash.GetTorrentHash(t.spec.magnetURI).value, remote.list).error;
      && DegradedWith(o.torrent.status.conditions, FailedToGetInfo, e.Error())
      && SameObserved(t.status, o.torrent.status) && o.torrent.finalizers == t.finalizers
      && o.result == ReconcileResult(RetryDelay) && o.err.None?
      && o.requests == [ListRequest(base, sid)]
      && o.writes == [StatusWrite(o.torrent.status)]
  {
    var e := LookupResult(MagnetHash.GetTorrentHash(t.spec.magnetURI).value, remote.list).error;
    DegradeSets(t.status, FailedToGetInfo, e.Error(), now);
  }

  /** A torrent qBittorrent does not list is added with the full magnet URI. If that fails the
      Torrent is Degraded and retried after 10 seconds; otherwise it is Available/TorrentAdded and
      re-checked after 5 seconds, with the observed fields left as they were. */
  lemma MissingTorrentIsAdded(t: TorrentValue, base: string, sid: string,
                              remote: RemoteReplies, store: StoreReplies, now: int)
    requires Live(t) && MagnetHash.GetTorrentHash(t.spec.magnetURI).Success?
    requires LookupResult(MagnetHash.GetTorrentHash(t.spec.magnetURI).value, remote.list) == Success(None)
    ensures var o := ReconcileOutcome(t, Found, base, sid, remote, store, now);
      && o.requests == [ListRequest(base, sid), AddRequest(base, sid, t.spec.magnetURI)]
      && SameObserved(t.status, o.torrent.status) && o.torrent.finalizers == t.finalizers
      && o.err.None? && o.writes == [StatusWrite(o.torrent.status)]
      && (ReplyError(AddOp, remote.add).Some? ==>
            && DegradedWith(o.torrent.status.conditions, FailedToAdd, ReplyError(AddOp, remote.add).value.Error())
            && o.result == ReconcileResult(RetryDelay))
      && (ReplyError(AddOp, remote.add).None? ==>
            && AvailableWith(o.torrent.status.conditions, TorrentAdded, AddedMessage)
            && o.result == ReconcileResult(AddedDelay))
  {
    match ReplyError(AddOp, remote.add)
    case Some(e) => DegradeSets(t.status, FailedToAdd, e.Error(), now);
    case None => MakeAvailableSets(t.status, TorrentAdded, AddedMessage, now);
  }

  /** A listed torrent's eight fields are mirrored into the status, written only when one of them
      changed, and the Torrent is Available/TorrentActive, re-checked after 30 seconds. If the
      changed status cannot be written, that error ends the pass with the conditions untouched. */
  lemma ListedTorrentIsMirrored(t: TorrentValue, base: string, sid: string, info: TorrentInfo,
                                remote: RemoteReplies, store: StoreReplies, now: int)
    requires Live(t) && MagnetHash.GetTorrentHash(t.spec.magnetURI).Success?
    requires LookupResult(MagnetHash.GetTorrentHash(t.spec.magnetURI).value, remote.list) == Success(Some(info))
    ensures var o := ReconcileOutcome(t, Found, base, sid, remote, store, now);
      var changed := !Mirrors(t.status, info);
      && Mirrors(o.torrent.status, info) && o.torrent.finalizers == t.finalizers
      && o.requests == [ListRequest(base, sid)]
      && (changed && store.statusUpdate.Some? ==>
            && o.torrent.status.conditions == t.status.conditions
            && o.writes == [StatusWrite(o.torrent.status)]
            && o.result == NoRequeue && o.err == Some(StoreError(store.statusUpdate.value)))
      && (!(changed && store.statusUpdate.Some?) ==>
            && AvailableWith(o.torrent.status.conditions, TorrentActive, ActiveMessage)
            && o.writes == (if changed then [StatusWrite(Observe(t.status, info))] else []) + [StatusWrite(o.torrent.status)]
            && o.result == ReconcileResult(ActiveDelay) && o.err.None?)
  {
    MakeAvailableSets(Observe(t.status, info), TorrentActive, ActiveMessage, now);
  }

  /** Condition soundness is an invariant of every pass: at most one entry per type, and never
      Available and Degraded both True. */
  lemma PassKeepsConditionsSound(t: TorrentValue, fetch: Fetch, base: string, sid: string,
                                 remote: RemoteReplies, store: StoreReplies, now: int)
    requires OnePerType(t.status.conditions) && Exclusive(t.status.conditions)
    ensures var o := ReconcileOutcome(t, fetch, base, sid, remote, store, now);
      OnePerType(o.torrent.status.conditions) && Exclusive(o.torrent.status.conditions)
  {
    var conds := t.status.conditions;
    if fetch.Found? {
      if t.MarkedForDeletion() {
        var e := ReplyError(DeleteOp, remote.delete);
        if t.status.hash != "" && e.Some? {
          DegradedSetter(conds, FailedToDelete, e.value.Error(), now);
        }
      } else if ContainsFinalizer(t.finalizers, TorrentFinalizer) {
        match MagnetHash.GetTorrentHash(t.spec.magnetURI)
        case Failure(_) =>
        case Success(hash) =>
          match LookupResult(hash, remote.list)
          case Failure(e) => DegradedSetter(conds, FailedToGetInfo, e.Error(), now);
          case Success(None) => {
            match ReplyError(AddOp, remote.add)
            case Some(e) => DegradedSetter(conds, FailedToAdd, e.Error(), now);
            case None => AvailableSetter(conds, TorrentAdded, AddedMessage, now);
          }
          case Success(Some(info)) => AvailableSetter(conds, TorrentActive, ActiveMessage, now);
      }
    }
  }

  /** The requeue delay tells what the pass did: 10 seconds only after marking the Torrent
      Degraded, 5 or 30 only after marking it Available; a returned error never requeues. */
  lemma DelayMatchesCondition(t: TorrentValue, fetch: Fetch, base: string, sid: string,
                              remote: RemoteReplies, store: StoreReplies, now: int)
    ensures var o := ReconcileOutcome(t, fetch, base, sid, remote, store, now);
      var delay := o.result.requeueAfter;
      && (delay == 0 || delay == FinalizerDelay || delay == AddedDelay || delay == RetryDelay || delay == ActiveDelay)
      && (o.err.Some? ==> delay == 0)
      && (delay == RetryDelay ==> IsTrue(o.torrent.status.conditions, TypeDegraded) && o.err.None?)
      && (delay == AddedDelay || delay == ActiveDelay ==> IsTrue(o.torrent.status.conditions, TypeAvailable) && o.err.None?)
  {
    if fetch.Found? {
      if t.MarkedForDeletion() {
        var e := ReplyError(DeleteOp, remote.delete);
        if t.status.hash != "" && e.Some? {
          DegradeSets(t.status, FailedToDelete, e.value.Error(), now);
        }
      } else if ContainsFinalizer(t.finalizers, TorrentFinalizer) {
        match MagnetHash.GetTorrentHash(t.spec.magnetURI)
        case Failure(_) =>
        case Success(hash) =>
          match LookupResult(hash, remote.list)
          case Failure(e) => DegradeSets(t.status, FailedToGetInfo, e.Error(), now);
          case Success(None) => {
            match ReplyError(AddOp, remote.add)
            case Some(e) => DegradeSets(t.status, FailedToAdd, e.Error(), now);
            case None => MakeAvailableSets(t.status, TorrentAdded, AddedMessage, now);
          }
          case Success(Some(info)) => MakeAvailableSets(Observe(t.status, info), TorrentActive, ActiveMessage, now);
      }
    }
  }

  /** A pass over a live Torrent leaves it carrying the finalizer, and every object write it makes
      carries the finalizer too: a Torrent whose remote torrent may exist is never released
      except through the deletion path. */
  lemma LivePassKeepsFinalizer(t: TorrentValue, base: string, sid: string,
                               remote: RemoteReplies, store: StoreReplies, now: int)
    requires !t.MarkedForDeletion()
    ensures var o := ReconcileOutcome(t, Found, base, sid, remote, store, now);
      && TorrentFinalizer in o.torrent.finalizers
      && (forall w :: w in o.writes && w.ObjectWrite? ==> TorrentFinalizer in w.finalizers)
      && (t.status.hash == "" && o.torrent.status.hash != "" ==> o.requests == [ListRequest(base, sid)])
  {
    if TorrentFinalizer in t.finalizers {
      SyncWritesOnlyStatus(t, base, sid, remote.list, remote.add, store.statusUpdate, now);
    }
  }

  /** The synchronising step never touches finalizers or spec, writes only the status, and changes
      the observed hash only after a lookup that found the torrent (its one request). */
  lemma SyncWritesOnlyStatus(t: TorrentValue, base: string, sid: string, listReply: Reply, addReply: Reply,
                             statusErr: Option<string>, now: int)
    ensures var o := SyncOutcome(t, base, sid, listReply, addReply, statusErr, now);
      && o.torrent.finalizers == t.finalizers && o.torrent.spec == t.spec
      && o.torrent.deletionTimestamp == t.deletionTimestamp
      && (forall w :: w in o.writes ==> w.StatusWrite?)
      && (o.torrent.status.hash != t.status.hash ==> o.requests == [ListRequest(base, sid)])
  {
    match MagnetHash.GetTorrentHash(t.spec.magnetURI)
    case Failure(_) =>
    case Success(hash) =>
      match LookupResult(hash, listReply)
      case Failure(_) =>
      case Success(None) =>
      case Success(Some(info)) =>
  }

  /** A settled Torrent is a fixpoint: when a pass has mirrored a listed torrent and marked it
      Active, a second pass against the same listing changes nothing, makes no field write (only
      the condition write) and asks for the same delay. */
  lemma SettledPassIsFixpoint(t: TorrentValue, base: string, sid: string, info: TorrentInfo,
                              remote: RemoteReplies, store1: StoreReplies, store2: StoreReplies,
                              now1: int, now2: int)
    requires Live(t) && MagnetHash.GetTorrentHash(t.spec.magnetURI).Success?
    requires LookupResult(MagnetHash.GetTorrentHash(t.spec.magnetURI).value, remote.list) == Success(Some(info))
    requires ReconcileOutcome(t, Found, base, sid, remote, store1, now1).result == ReconcileResult(ActiveDelay)
    ensures var o1 := ReconcileOutcome(t, Found, base, sid, remote, store1, now1);
      var o2 := ReconcileOutcome(o1.torrent, Found, base, sid, remote, store2, now2);
      && o2.torrent == o1.torrent
      && o2.writes == [StatusWrite(o1.torrent.status)]
      && o2.result == o1.result && o2.err.None?
      && o2.requests == o1.requests
  {
    var observed := Observe(t.status, info);
    AvailableIdempotent(observed.conditions, TorrentActive, ActiveMessage, now1, now2);
  }

  /** Right after a successful add the observed hash is still empty (it is filled in by the next
      pass), so deleting the Torrent before that pass releases it with no remote delete: the
      torrent added to qBittorrent stays there. */
  lemma DeleteBeforeObservedKeepsRemote(t: TorrentValue, base: string, sid: string, ts: int,
                                        remote: RemoteReplies, store1: StoreReplies, store2: StoreReplies,
                                        now1: int, now2: int)
    requires Live(t) && t.status.hash == "" && MagnetHash.GetTorrentHash(t.spec.magnetURI).Success?
    requires LookupResult(MagnetHash.GetTorrentHash(t.spec.magnetURI).value, remote.list) == Success(None)
    requires ReplyError(AddOp, remote.add).None?
    ensures var o1 := ReconcileOutcome(t, Found, base, sid, remote, store1, now1);
      var o2 := ReconcileOutcome(o1.torrent.(deletionTimestamp := Some(ts)), Found, base, sid, remote, store2, now2);
      && AddRequest(base, sid, t.spec.magnetURI) in o1.requests
      && o2.requests == []
      && TorrentFinalizer !in o2.torrent.finalizers
  {
  }

  /** The example torrent: "magnet:?xt=urn:btih:ABC123&dn=test" is not listed, so it is added with
      the whole URI, becomes Available/TorrentAdded and is re-checked after 5 seconds. */
  lemma ExampleTorrentIsAdded(t: TorrentValue, uri: string, base: string, sid: string,
                              records: seq<TorrentInfo>, line: string, cookies: seq<Cookie>,
                              remote: RemoteReplies, store: StoreReplies, now: int)
    requires uri == "magnet:?xt=urn:btih:ABC123&dn=test"
    requires Live(t) && t.spec.magnetURI == uri
    requires forall i :: 0 <= i < |records| ==> records[i].hash != "ABC123"
    requires remote.list == Response(StatusOK, line, cookies, Records(records))
    requires remote.add.Response? && remote.add.status == StatusOK
    ensures var o := ReconcileOutcome(t, Found, base, sid, remote, store, now);
      && o.requests == [ListRequest(base, sid), AddRequest(base, sid, uri)]
      && FormValue(o.requests[1].form, "urls") == Some(uri)
      && AvailableWith(o.torrent.status.conditions, TorrentAdded, AddedMessage)
      && o.result == ReconcileResult(AddedDelay) && o.err.None?
  {
    MagnetHash.ExtractsExampleHash(uri);
    MissingTorrentIsAdded(t, base, sid, remote, store, now);
  }

  /** A listed torrent whose state moved from downloading to uploading: the status follows it and
      the Torrent is Available/TorrentActive, re-checked after 30 seconds. */
  lemma StateChangeIsMirrored(t: TorrentValue, base: string, sid: string, info: TorrentInfo,
                              remote: RemoteReplies, store: StoreReplies, now: int)
    requires Live(t) && MagnetHash.GetTorrentHash(t.spec.magnetURI).Success?
    requires LookupResult(MagnetHash.GetTorrentHash(t.spec.magnetURI).value, remote.list) == Success(Some(info))
    requires t.status.state == "downloading" && info.state == "uploading" && store.statusUpdate.None?
    ensures var o := ReconcileOutcome(t, Found, base, sid, remote, store, now);
      && o.torrent.status.state == "uploading"
      && |o.writes| == 2
      && AvailableWith(o.torrent.status.conditions, TorrentActive, ActiveMessage)
      && o.result == ReconcileResult(ActiveDelay) && o.err.None?
  {
    ListedTorrentIsMirrored(t, base, sid, info, remote, store, now);
  }

  /** A Torrent marked for deletion whose delete cannot reach qBittorrent keeps its finalizer, is
      Degraded/FailedToDeleteTorrent with the transport error, and is retried after 10 seconds. */
  lemma DeleteTransportFailure(t: TorrentValue, base: string, sid: string, cause: string,
                               remote: RemoteReplies, store: StoreReplies, now: int)
    requires t.MarkedForDeletion() && TorrentFinalizer in t.finalizers && t.status.hash != ""
    requires remote.delete == TransportFailure(cause)
    ensures var o := ReconcileOutcome(t, Found, base, sid, remote, store, now);
      && TorrentFinalizer in o.torrent.finalizers
      && DegradedWith(o.torrent.status.conditions, FailedToDelete, "failed to delete torrent: " + cause)
      && o.result == ReconcileResult(RetryDelay) && o.err.None?
  {
    assert "failed to " + "delete torrent" + ": " == "failed to delete torrent: ";
    assert RequestFailed(DeleteOp, cause).Error() == "failed to delete torrent: " + cause;
    DeletionGuard(t, base, sid, remote, store, now);
  }
}
