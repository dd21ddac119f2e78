/** The Torrent reconciler of internal/controller/torrent_controller.go. One pass fetches the
    Torrent, then deletes it remotely (deletion marker), adds the finalizer (no finalizer yet) or
    synchronises it with qBittorrent, updating the object in place and returning a requeue delay.
    The store (Get, Update, Status().Update) is an oracle: the pass is told what Get found and
    whether the writes whose failure the source acts upon failed; every write is recorded in
    `writes`. qBittorrent replies are passed in and reach the client unchanged.

    The functions *Outcome below say what a pass does to values; the methods do it in place and
    are proved to agree with them; the lemmas at the end state the controller's promises. */
module TorrentController {
  import opened Wrappers
  import MagnetHash
  import opened QBittorrent
  import opened Conditions
  import opened Finalizers
  import opened TorrentApi

  /** ctrl.Result: the delay in seconds after which the pass is re-run; 0 means no requeue. */
  datatype ReconcileResult = ReconcileResult(requeueAfter: nat)

  const NoRequeue: ReconcileResult := ReconcileResult(0)

  /** The fixed delays: finalizer registered, torrent just added, remote failure, steady state. */
  const FinalizerDelay: nat := 1
  const AddedDelay: nat := 5
  const RetryDelay: nat := 10
  const ActiveDelay: nat := 30

  /** What the store's Get did: found the Torrent, found nothing, or failed otherwise. */
  datatype Fetch = Found | NotFound | FetchFailed(cause: string)

  /** The errors a pass returns to the runtime. */
  datatype ReconcileError = StoreError(cause: string) | MalformedURI(hashError: MagnetHash.HashError)

  /** A write to the store: r.Update (metadata and spec) or r.Status().Update. */
  datatype StoreWrite = ObjectWrite(finalizers: seq<string>, spec: TorrentSpec) | StatusWrite(status: TorrentStatus)

  /** The replies qBittorrent gives to the calls a pass may make (each at most once per pass). */
  datatype RemoteReplies = RemoteReplies(delete: Reply, list: Reply, add: Reply)

  /** The outcomes of the store writes whose failure the source acts upon: r.Update (finalizer
      added or removed) and the status write after a field change. */
  datatype StoreReplies = StoreReplies(update: Option<string>, statusUpdate: Option<string>)

  /** Everything a pass produces: the Torrent's new value, the result, the error, and the store
      writes and remote requests it issued, in order. */
  datatype Outcome = Outcome(
    torrent: TorrentValue,
    result: ReconcileResult,
    err: Option<ReconcileError>,
    writes: seq<StoreWrite>,
    requests: seq<Request>)

  const FailedToDelete: string := "FailedToDeleteTorrent"
  const FailedToGetInfo: string := "FailedToGetTorrentInfo"
  const FailedToAdd: string := "FailedToAddTorrent"
  const TorrentAdded: string := "TorrentAdded"
  const TorrentActive: string := "TorrentActive"
  const AddedMessage: string := "Torrent added to qBittorrent"
  const ActiveMessage: string := "Torrent is active on qBittorrent"

  /** The eight observed fields of a status equal those of the remote record. */
  predicate Mirrors(s: TorrentStatus, info: TorrentInfo) {
    && s.hash == info.hash
    && s.name == info.name
    && s.state == info.state
    && s.totalSize == info.totalSize
    && s.contentPath == info.contentPath
    && s.addedOn == info.addedOn
    && s.timeActive == info.timeActive
    && s.amountLeft == info.amountLeft
  }

  /** The status after updateTorrentStatus: the eight observed fields taken from the record. */
  function Observe(s: TorrentStatus, info: TorrentInfo): (r: TorrentStatus)
    ensures Mirrors(r, info)
    ensures r.conditions == s.conditions
    ensures Mirrors(s, info) <==> r == s
  {
    s.(hash := info.hash, name := info.name, state := info.state, totalSize := info.totalSize,
       contentPath := info.contentPath, addedOn := info.addedOn, timeActive := info.timeActive,
       amountLeft := info.amountLeft)
  }

  function Degrade(s: TorrentStatus, reason: string, message: string, now: int): TorrentStatus {
    s.(conditions := WithDegraded(s.conditions, reason, message, now))
  }

  function MakeAvailable(s: TorrentStatus, reason: string, message: string, now: int): TorrentStatus {
    s.(conditions := WithAvailable(s.conditions, reason, message, now))
  }

  function StoreErr(e: Option<string>): Option<ReconcileError> {
    if e.Some? then Some(StoreError(e.value)) else None
  }

  /** handleDeletion on values. */
  function DeletionOutcome(t: TorrentValue, baseURL: string, sessionID: string, deleteReply: Reply,
                           updateErr: Option<string>, now: int): Outcome
  {
    var hash := t.status.hash;
    var requests := if hash == "" then [] else [DeleteRequest(baseURL, sessionID, hash, true)];
    var deleteErr := if hash == "" then None else ReplyError(DeleteOp, deleteReply);
    match deleteErr
    case Some(e) =>
      var t' := t.(status := Degrade(t.status, FailedToDelete, e.Error(), now));
      Outcome(t', ReconcileResult(RetryDelay), None, [StatusWrite(t'.status)], requests)
    case None =>
      var t' := t.(finalizers := RemoveFinalizer(t.finalizers, TorrentFinalizer));
      Outcome(t', NoRequeue, StoreErr(updateErr), [ObjectWrite(t'.finalizers, t'.spec)], requests)
  }

  /** reconcile (the synchronising step) on values: extract the hash, then look it up. */
  function SyncOutcome(t: TorrentValue, baseURL: string, sessionID: string, listReply: Reply, addReply: Reply,
                       statusErr: Option<string>, now: int): Outcome
  {
    match MagnetHash.GetTorrentHash(t.spec.magnetURI)
    case Failure(e) => Outcome(t, NoRequeue, Some(MalformedURI(e)), [], [])
    case Success(hash) => HashedOutcome(t, hash, baseURL, sessionID, listReply, addReply, statusErr, now)
  }

  /** The part of reconcile after the hash is known: look the torrent up, then add or mirror it. */
  function HashedOutcome(t: TorrentValue, hash: string, baseURL: string, sessionID: string, listReply: Reply,
                         addReply: Reply, statusErr: Option<string>, now: int): Outcome
  {
    var list := ListRequest(baseURL, sessionID);
    match LookupResult(hash, listReply)
    case Failure(e) =>
      var t' := t.(status := Degrade(t.status, FailedToGetInfo, e.Error(), now));
      Outcome(t', ReconcileResult(RetryDelay), None, [StatusWrite(t'.status)], [list])
    case Success(None) =>
      var o := AddOutcome(t, baseURL, sessionID, addReply, now);
      o.(requests := [list] + o.requests)
    case Success(Some(info)) =>
      var o := ListedOutcome(t, info, statusErr, now);
      o.(requests := [list] + o.requests)
  }

  /** The part of reconcile after a lookup that found nothing: add the torrent and set the
      condition that says how that went. */
  function AddOutcome(t: TorrentValue, baseURL: string, sessionID: string, addReply: Reply, now: int): Outcome {
    var requests := [AddRequest(baseURL, sessionID, t.spec.magnetURI)];
    match ReplyError(AddOp, addReply)
    case Some(e) =>
      var t' := t.(status := Degrade(t.status, FailedToAdd, e.Error(), now));
      Outcome(t', ReconcileResult(RetryDelay), None, [StatusWrite(t'.status)], requests)
    case None =>
      var t' := t.(status := MakeAvailable(t.status, TorrentAdded, AddedMessage, now));
      Outcome(t', ReconcileResult(AddedDelay), None, [StatusWrite(t'.status)], requests)
  }

  /** The part of reconcile after a lookup that found `info`: mirror its fields (writing them only
      when one changed) and mark the Torrent Available. */
  function ListedOutcome(t: TorrentValue, info: TorrentInfo, statusErr: Option<string>, now: int): Outcome {
    var observed := Observe(t.status, info);
    var diffWrites := if Mirrors(t.status, info) then [] else [StatusWrite(observed)];
    if !Mirrors(t.status, info) && statusErr.Some? then
      Outcome(t.(status := observed), NoRequeue, StoreErr(statusErr), diffWrites, [])
    else
      var t' := t.(status := MakeAvailable(observed, TorrentActive, ActiveMessage, now));
      Outcome(t', ReconcileResult(ActiveDelay), None, diffWrites + [StatusWrite(t'.status)], [])
  }

  /** Reconcile on values. */
  function ReconcileOutcome(t: TorrentValue, fetch: Fetch, baseURL: string, sessionID: string,
                            remote: RemoteReplies, store: StoreReplies, now: int): Outcome
  {
    match fetch
    case NotFound => Outcome(t, NoRequeue, None, [], [])
    case FetchFailed(cause) => Outcome(t, NoRequeue, Some(StoreError(cause)), [], [])
    case Found =>
      if t.MarkedForDeletion() then
        DeletionOutcome(t, baseURL, sessionID, remote.delete, store.update, now)
      else if !ContainsFinalizer(t.finalizers, TorrentFinalizer) then
        var t' := t.(finalizers := AddFinalizer(t.finalizers, TorrentFinalizer));
        var result := if store.update.Some? then NoRequeue else ReconcileResult(FinalizerDelay);
        Outcome(t', result, StoreErr(store.update), [ObjectWrite(t'.finalizers, t'.spec)], [])
      else
        SyncOutcome(t, baseURL, sessionID, remote.list, remote.add, store.statusUpdate, now)
  }

  /** TorrentReconciler: the qBittorrent client it calls and the writes it has made to the store. */
  class TorrentReconciler {
    const qbt: Client
    var writes: seq<StoreWrite>

    constructor (qbt: Client)
      ensures this.qbt == qbt && writes == []
    {
      this.qbt := qbt;
      writes := [];
    }

    /** Reconcile: one pass over the Torrent that Get filled in (when `fetch` is Found). */
    method Reconcile(torrent: Torrent, fetch: Fetch, remote: RemoteReplies, store: StoreReplies, now: int)
      returns (res: ReconcileResult, err: Option<ReconcileError>)
      modifies this`writes, qbt`sent, torrent`finalizers, torrent`status
      ensures var o := ReconcileOutcome(old(torrent.Value()), fetch, qbt.baseURL, qbt.sessionID, remote, store, now);
        && torrent.Value() == o.torrent && res == o.result && err == o.err
        && writes == old(writes) + o.writes && qbt.sent == old(qbt.sent) + o.requests
    {
      if fetch.NotFound? {
        return NoRequeue, None;
      }
      if fetch.FetchFailed? {
        return NoRequeue, Some(StoreError(fetch.cause));
      }
      if torrent.deletionTimestamp.Some? {
        res, err := HandleDeletion(torrent, remote.delete, store.update, now);
        return;
      }
      if !ContainsFinalizer(torrent.finalizers, TorrentFinalizer) {
        torrent.finalizers := AddFinalizer(torrent.finalizers, TorrentFinalizer);
        writes := writes + [ObjectWrite(torrent.finalizers, torrent.spec)];
        if store.update.Some? {
          return NoRequeue, Some(StoreError(store.update.value));
        }
        return ReconcileResult(FinalizerDelay), None;
      }
      res, err := Synchronize(torrent, remote.list, remote.add, store.statusUpdate, now);
    }

    /** handleDeletion: delete the remote torrent (and its files) when a hash is known, then drop
        the finalizer; a failed delete keeps the finalizer and marks the Torrent Degraded. */
    method HandleDeletion(torrent: Torrent, deleteReply: Reply, updateErr: Option<string>, now: int)
      returns (res: ReconcileResult, err: Option<ReconcileError>)
      modifies this`writes, qbt`sent, torrent`finalizers, torrent`status
      ensures var o := DeletionOutcome(old(torrent.Value()), qbt.baseURL, qbt.sessionID, deleteReply, updateErr, now);
        && torrent.Value() == o.torrent && res == o.result && err == o.err
        && writes == old(writes) + o.writes && qbt.sent == old(qbt.sent) + o.requests
    {
      if torrent.status.hash != "" {
        var e := qbt.DeleteTorrent(torrent.status.hash, true, deleteReply);
        if e.Some? {
          SetDegradedCondition(torrent, FailedToDelete, e.value.Error(), now);
          writes := writes + [StatusWrite(torrent.status)];
          return ReconcileResult(RetryDelay), None;
        }
      }
      torrent.finalizers := RemoveFinalizer(torrent.finalizers, TorrentFinalizer);
      writes := writes + [ObjectWrite(torrent.finalizers, torrent.spec)];
      if updateErr.Some? {
        return NoRequeue, Some(StoreError(updateErr.value));
      }
      return NoRequeue, None;
    }

    /** reconcile: extract the hash, look the torrent up, add it when missing or mirror its
        fields when present, and set the matching condition. */
    method Synchronize(torrent: Torrent, listReply: Reply, addReply: Reply, statusErr: Option<string>, now: int)
      returns (res: ReconcileResult, err: Option<ReconcileError>)
      modifies this`writes, qbt`sent, torrent`status
      ensures var o := SyncOutcome(old(torrent.Value()), qbt.baseURL, qbt.sessionID, listReply, addReply, statusErr, now);
        && torrent.Value() == o.torrent && res == o.result && err == o.err
        && writes == old(writes) + o.writes && qbt.sent == old(qbt.sent) + o.requests
    {
      var hash := MagnetHash.GetTorrentHash(torrent.spec.magnetURI);
      if hash.Failure? {
        return NoRequeue, Some(MalformedURI(hash.error));
      }
      res, err := SynchronizeHash(torrent, hash.value, listReply, addReply, statusErr, now);
    }

    /** reconcile once the hash is known: look the torrent up, then add or mirror it. */
    method SynchronizeHash(torrent: Torrent, hash: string, listReply: Reply, addReply: Reply,
                           statusErr: Option<string>, now: int)
      returns (res: ReconcileResult, err: Option<ReconcileError>)
      modifies this`writes, qbt`sent, torrent`status
      ensures var o := HashedOutcome(old(torrent.Value()), hash, qbt.baseURL, qbt.sessionID, listReply, addReply, statusErr, now);
        && torrent.Value() == o.torrent && res == o.result && err == o.err
        && writes == old(writes) + o.writes && qbt.sent == old(qbt.sent) + o.requests
    {
      var info := qbt.GetTorrentInfo(hash, listReply);
      if info.Failure? {
        SetDegradedCondition(torrent, FailedToGetInfo, info.error.Error(), now);
        writes := writes + [StatusWrite(torrent.status)];
        return ReconcileResult(RetryDelay), None;
      }
      if info.value.None? {
        res, err := AddMissingTorrent(torrent, addReply, now);
      } else {
        res, err := MirrorListedTorrent(torrent, info.value.value, statusErr, now);
      }
    }

    /** reconcile once the torrent is known to be missing from qBittorrent. */
    method AddMissingTorrent(torrent: Torrent, addReply: Reply, now: int)
      returns (res: ReconcileResult, err: Option<ReconcileError>)
      modifies this`writes, qbt`sent, torrent`status
      ensures var o := AddOutcome(old(torrent.Value()), qbt.baseURL, qbt.sessionID, addReply, now);
        && torrent.Value() == o.torrent && res == o.result && err == o.err
        && writes == old(writes) + o.writes && qbt.sent == old(qbt.sent) + o.requests
    {
      var e := qbt.AddTorrent(torrent.spec.magnetURI, addReply);
      if e.Some? {
        SetDegradedCondition(torrent, FailedToAdd, e.value.Error(), now);
        writes := writes + [StatusWrite(torrent.status)];
        return ReconcileResult(RetryDelay), None;
      }
      SetAvailableCondition(torrent, TorrentAdded, AddedMessage, now);
      writes := writes + [StatusWrite(torrent.status)];
      return ReconcileResult(AddedDelay), None;
    }

    /** reconcile once qBittorrent has listed the torrent as `info`. */
    method MirrorListedTorrent(torrent: Torrent, info: TorrentInfo, statusErr: Option<string>, now: int)
      returns (res: ReconcileResult, err: Option<ReconcileError>)
      modifies this`writes, torrent`status
      ensures var o := ListedOutcome(old(torrent.Value()), info, statusErr, now);
        && torrent.Value() == o.torrent && res == o.result && err == o.err
        && writes == old(writes) + o.writes && o.requests == []
    {
      var updated := UpdateTorrentStatus(torrent, info);
      if updated {
        writes := writes + [StatusWrite(torrent.status)];
        if statusErr.Some? {
          return NoRequeue, Some(StoreError(statusErr.value));
        }
      }
      SetAvailableCondition(torrent, TorrentActive, ActiveMessage, now);
      writes := writes + [StatusWrite(torrent.status)];
      return ReconcileResult(ActiveDelay), None;
    }

    /** setDegradedCondition: upsert Degraded (True, this reason and message), then remove Available. */
    method SetDegradedCondition(torrent: Torrent, reason: string, message: string, now: int)
      modifies torrent`status
      ensures torrent.status == Degrade(old(torrent.status), reason, message, now)
    {
      torrent.status := torrent.status.(conditions := SetStatusCondition(torrent.status.conditions, DegradedCondition(reason, message, now)));
      torrent.status := torrent.status.(conditions := RemoveStatusCondition(torrent.status.conditions, TypeAvailable));
    }

    /** setAvailableCondition: upsert Available (True, this reason and message), then remove Degraded. */
    method SetAvailableCondition(torrent: Torrent, reason: string, message: string, now: int)
      modifies torrent`status
      ensures torrent.status == MakeAvailable(old(torrent.status), reason, message, now)
    {
      torrent.status := torrent.status.(conditions := SetStatusCondition(torrent.status.conditions, AvailableCondition(reason, message, now)));
      torrent.status := torrent.status.(conditions := RemoveStatusCondition(torrent.status.conditions, TypeDegraded));
    }

    /** updateTorrentStatus: copy each observed field that differs from the record, reporting
        whether any did. */
    method UpdateTorrentStatus(torrent: Torrent, info: TorrentInfo) returns (updated: bool)
      modifies torrent`status
      ensures torrent.status == Observe(old(torrent.status), info)
      ensures updated <==> !Mirrors(old(torrent.status), info)
    {
      updated := false;
      if torrent.status.hash != info.hash {
        torrent.status := torrent.status.(hash := info.hash);
        updated := true;
      }
      if torrent.status.name != info.name {
        torrent.status := torrent.status.(name := info.name);
        updated := true;
      }
      if torrent.status.state != info.state {
        torrent.status := torrent.status.(state := info.state);
        updated := true;
      }
      if torrent.status.totalSize != info.totalSize {
        torrent.status := torrent.status.(totalSize := info.totalSize);
        updated := true;
      }
      if torrent.status.contentPath != info.contentPath {
        torrent.status := torrent.status.(contentPath := info.contentPath);
        updated := true;
      }
      if torrent.status.addedOn != info.addedOn {
        torrent.status := torrent.status.(addedOn := info.addedOn);
        updated := true;
      }
      if torrent.status.timeActive != info.timeActive {
        torrent.status := torrent.status.(timeActive := info.timeActive);
        updated := true;
      }
      if torrent.status.amountLeft != info.amountLeft {
        torrent.status := torrent.status.(amountLeft := info.amountLeft);
        updated := true;
      }
    }
  }
}
