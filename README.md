# qbittorrent-operator in Dafny

This project models the core of qbittorrent-operator, a Kubernetes operator that keeps
qBittorrent's torrent list in line with `Torrent` resources. Each `Torrent` names a magnet URI.
The model has three parts, and the verifier proves properties about each:

- **Magnet hash extraction** (`magnet.dfy`, module `MagnetHash`). `GetTorrentHash` is a pure
  function. It returns the token after the first `btih:` and up to the next `&`. The proofs cover
  its two error cases, its round trips, and the empty hash it accepts.
- **The qBittorrent client** (`qbittorrent.dfy`, module `QBittorrent`). `Client` is a class with
  the base URL and the SID session.
  - `NewClient` trims the base URL.
  - `Login` scans the reply's cookies in a loop with `break`.
  - `GetTorrentsInfo`, `AddTorrent` and `DeleteTorrent` classify each reply as 200, 401 or other.
  - `GetTorrentInfo` scans for the first record with a given hash.
  - Each method appends the request it sends to `sent`: the method, URL, cookies and form fields.
    This is how the model records what the client sends over HTTP.
- **The reconciler** (`controller.dfy`, module `TorrentController`, class `TorrentReconciler`).
  One reconciliation pass changes a `Torrent` (`torrent_types.dfy`) in place:
  - it removes or adds the finalizer (`finalizers.dfy`);
  - it upserts Available/Degraded conditions (`conditions.dfy`);
  - it copies eight fields from qBittorrent's record;
  - it returns a requeue delay.

Each of the reconciler's methods is proved equal to a function on values: `ReconcileOutcome`,
`DeletionOutcome`, `SyncOutcome`, `HashedOutcome`, `AddOutcome` or `ListedOutcome`. Each function
gives the new Torrent, the result, the error, the store writes and the qBittorrent requests.
`controller_properties.dfy` states the controller's promises about those functions:

- deletion is handled before the finalizer, and a failed delete keeps the finalizer;
- the sync-path table: which condition each remote outcome sets, with which requeue delay;
- condition soundness: at most one entry per type, and never Available and Degraded both True;
- a live pass keeps the finalizer;
- a settled Torrent is a fixpoint of the pass;
- worked scenarios.

External calls are parameters:

- qBittorrent's replies are values of the `Reply` datatype;
- the store's `Get` is a `Fetch` outcome;
- `r.Update` and the field-change `r.Status().Update` are told whether they fail;
- the clock is a `now` parameter.

Where the code's behaviour might surprise a reader, the model follows the code:

- **The add pass does not record the hash.** It writes the status with its condition, but copies
  none of the record's fields, so `status.hash` stays empty. The hash is only observed on the
  next pass, 5 seconds later. A Torrent
  deleted in between loses its finalizer with no remote delete, and the torrent stays in
  qBittorrent (`DeleteBeforeObservedKeepsRemote`).
- **A settled pass still writes the status.** A settled pass makes no field write, but it always
  writes the status with the re-set Available condition. The condition's transition time stays
  unchanged, so the Torrent is unchanged (`SettledPassIsFixpoint`).
- **An empty hash is accepted.** A `btih:` followed directly by `&` yields an empty hash
  (`ExtractsEmptyHash`).
- **A stale session can survive `Login`.** If `Login` gets a 200 reply with no `SID` cookie, it
  keeps a previous non-empty session and succeeds.
- **The add request sends the URI twice.** Its multipart body carries the magnet URI twice under
  `urls`: once from `WriteField` and once from `CreateFormField`.
- **List errors are wrapped twice.** `GetTorrentInfo` wraps every list error a second time, so
  the Degraded message reads `failed to get torrents info list: failed to get torrents info list: …`
  for a transport failure.

## Model

| member | source | states |
|---|---|---|
| MagnetHash.IndexFrom | internal/qbittorrent/utils.go:10 | The search from a position returns -1 exactly when the pattern does not occur at or after it. Otherwise it returns the first occurrence. |
| MagnetHash.Index | internal/qbittorrent/utils.go:10 | As `strings.Index`: -1 exactly when the pattern occurs nowhere. Otherwise an occurrence with none before it. |
| MagnetHash.GetTorrentHash | internal/qbittorrent/utils.go:8-30 | "'btih:' not found" exactly when the input holds no marker. "no hash after" exactly when the first marker ends the input. Otherwise the result is the token right after the first marker: it holds no `&` and is followed by `&` or the end of the input. An empty result means `&` follows the marker. |
| MagnetHash.CharIndex | internal/qbittorrent/utils.go:22 | Searching for `&` finds the first position holding `&`, and -1 when there is none. |
| MagnetHash.MarkerFirstAfter | internal/qbittorrent/utils.go:10 | When P holds no marker, the first marker of P + `btih:` + R is at \|P\|, whatever R is. The marker cannot overlap itself. |
| MagnetHash.MarkerAtEndFails | internal/qbittorrent/utils.go:16-19 | A marker that ends the input gives "no hash after 'btih:'". |
| MagnetHash.RoundTripDelimited | internal/qbittorrent/utils.go:10-29 | P + `btih:` + H + `&` + S yields H when P holds no marker and H holds no `&`. |
| MagnetHash.DelimiterAfterToken | internal/qbittorrent/utils.go:22 | The first `&` in H + `&` + S is at \|H\| when H holds none. |
| MagnetHash.HashBeforeDelimiter | internal/qbittorrent/utils.go:22-29 | When the first `&` after the first marker is \|H\| characters on, and those characters are H, the result is H. |
| MagnetHash.RoundTripToEnd | internal/qbittorrent/utils.go:22-26 | P + `btih:` + H yields H when H is non-empty and holds no `&`: the hash runs to the end of the input. |
| MagnetHash.EmptyHashAccepted | internal/qbittorrent/utils.go:16-29 | P + `btih:&` + S succeeds with the empty hash. No length check is made. |
| MagnetHash.NoMarkerWithoutB | internal/qbittorrent/utils.go:10 | A string without `b` holds no marker. |
| MagnetHash.MagnetPrefixHasNoMarker | internal/qbittorrent/utils.go:10 | `magnet:?xt=urn:` holds no marker. |
| MagnetHash.ExtractsExampleHash | internal/qbittorrent/utils.go:8-30 | `magnet:?xt=urn:btih:ABC123&dn=test` yields `ABC123`. |
| MagnetHash.ExtractsEmptyHash | internal/qbittorrent/utils.go:16-29 | `magnet:?xt=urn:btih:&dn=x` yields the empty hash. |
| QBittorrent.TrimSuffix | internal/qbittorrent/client.go:43 | The result is the input, or the input less one trailing suffix. The suffix is removed exactly when the input ends with it. |
| QBittorrent.TrimsOneSlash | internal/qbittorrent/client.go:41-48 | Exactly one trailing `/` is removed, even when the URL before it also ends with `/`. |
| QBittorrent.KeepsUnslashed | internal/qbittorrent/client_test.go:10-21 | A base URL without a trailing `/` is kept as it is. |
| QBittorrent.NewClientExamples | internal/qbittorrent/client_test.go:28-34 | `http://localhost:8080/` becomes `http://localhost:8080`, and `http://localhost:8080` stays as it is. |
| QBittorrent.FirstCookie | internal/qbittorrent/client.go:78-83 | None exactly when no cookie has the name. Otherwise the value of a cookie with that name. |
| QBittorrent.FirstCookieAt | internal/qbittorrent/client.go:78-83 | The cookie the scan stops at is the first one with the name, so later SID cookies are ignored. |
| QBittorrent.ReplyError | internal/qbittorrent/client.go:119-139 | A transport failure is wrapped with the operation's text. Status 200 is success, 401 is "unauthorized access to qbittorrent", and any other status is a failure carrying the status line. Add (client.go:215-234) and Delete (client.go:272-289) classify replies the same way. |
| QBittorrent.ListResult | internal/qbittorrent/client.go:99-154 | There are three ways to fail: the classified reply error, a body that does not decode, and no error otherwise. Success comes exactly from a 200 reply whose body decodes, and it returns those records. |
| QBittorrent.FirstWithHash | internal/qbittorrent/client.go:165-173 | None exactly when no record has the hash. Otherwise a record with that hash, taken from the list. |
| QBittorrent.FirstIsFound | internal/qbittorrent/client.go:165-170 | A match found after no earlier match is the first record with the hash. |
| QBittorrent.LookupResult | internal/qbittorrent/client.go:157-174 | A list error is wrapped in "failed to get torrents info list". Otherwise the result is the first matching record, or None. |
| QBittorrent.DeleteForm | internal/qbittorrent/client.go:254-257 | The form has two fields: `hashes` is the hash, and `deleteFiles` is `true` or `false` as the flag says. |
| QBittorrent.RequestsCarrySession | internal/qbittorrent/client.go:108-117 | List, Add (client.go:209-212) and Delete (client.go:266-269) send the session as their only SID cookie. Login sends none, and its form carries the username and password. Add's form carries the URI. |
| QBittorrent.Client.NewClient | internal/qbittorrent/client.go:41-48 | The base URL loses one trailing `/`. The session is empty and nothing has been sent. |
| QBittorrent.Client.Login | internal/qbittorrent/client.go:51-96 | A transport failure or a non-200 status is an error with the exact message, and the session is unchanged. On 200 the session becomes the first SID cookie's value, or stays as it was when there is none. Login then fails, with "failed to get session ID", exactly when the session is empty. |
| QBittorrent.Client.GetTorrentsInfo | internal/qbittorrent/client.go:99-154 | Sends the list request with the session cookie and returns `ListResult` of the reply. |
| QBittorrent.Client.GetTorrentInfo | internal/qbittorrent/client.go:157-174 | The loop returns the first record with the hash, None when there is none, and the wrapped list error otherwise. |
| QBittorrent.Client.AddTorrent | internal/qbittorrent/client.go:177-241 | Sends the multipart add request with the session cookie and returns the classified reply error. |
| QBittorrent.Client.DeleteTorrent | internal/qbittorrent/client.go:244-295 | Sends the delete form with the session cookie and returns the classified reply error. |
| Conditions.FindStatusCondition | internal/controller/torrent_controller.go:226 | None exactly when no entry has the type. Otherwise an entry of that type from the list. |
| Conditions.FindFirstAt | internal/controller/torrent_controller.go:226 | The entry found is the first of its type: one with no entry of that type before it is the one returned. |
| Conditions.SetStatusCondition | internal/controller/torrent_controller.go:226 | An absent type is appended. A present type keeps the length the same. |
| Conditions.RemoveStatusCondition | internal/controller/torrent_controller.go:229 | No entry of the type is left, and the list does not grow. |
| Conditions.SetFindsUpserted | internal/controller/torrent_controller.go:226 | After the upsert, the first entry of the type is the merged old entry, or the new condition. |
| Conditions.SetKeepsOthers | internal/controller/torrent_controller.go:226 | An upsert does not change the first entry of any other type. |
| Conditions.SetKeepsOnePerType | internal/controller/torrent_controller.go:226 | An upsert keeps at most one entry per type. |
| Conditions.SetUnchanged | internal/controller/torrent_controller.go:241 | Upserting a condition that does not change the existing entry leaves the list as it was. |
| Conditions.RemoveKeepsContents | internal/controller/torrent_controller.go:229 | Removal keeps exactly the entries of the other types. |
| Conditions.RemoveKeepsOthers | internal/controller/torrent_controller.go:229 | Removal does not change the first entry of any other type. |
| Conditions.RemoveAbsent | internal/controller/torrent_controller.go:244 | Removing an absent type changes nothing. |
| Conditions.RemoveKeepsAbsence | internal/controller/torrent_controller.go:244 | A type that is absent stays absent after another type is removed. |
| Conditions.RemoveKeepsOnePerType | internal/controller/torrent_controller.go:229 | Removal keeps at most one entry per type. |
| Conditions.SetThenRemove | internal/controller/torrent_controller.go:218-230 | An upsert followed by removing another type leaves: the upserted entry, none of the removed type, the other types unchanged, and at most one entry per type. |
| Conditions.DegradedSetter | internal/controller/torrent_controller.go:218-230 | Leaves Degraded True with this reason and message, and no Available entry. Other types are unchanged, Available and Degraded are never both True, and one entry per type is kept. |
| Conditions.AvailableSetter | internal/controller/torrent_controller.go:233-245 | The same with Available and Degraded swapped. |
| Conditions.AvailableIdempotent | internal/controller/torrent_controller.go:233-245 | Setting Available a second time with the same reason and message changes nothing, not even the transition time. |
| Conditions.DegradedIdempotent | internal/controller/torrent_controller.go:218-230 | The same for Degraded. |
| Finalizers.ContainsFinalizer | internal/controller/torrent_controller.go:91 | True exactly when the token is in the list. |
| Finalizers.AddFinalizer | internal/controller/torrent_controller.go:93 | The token is present afterwards, and nothing else is added. A list that already has the token is unchanged. Otherwise the token is appended to the old list. |
| Finalizers.RemoveFinalizer | internal/controller/torrent_controller.go:131 | No copy of the token is left, and every other entry stays. A list without the token is unchanged. |
| Finalizers.RemoveKeepsOrder | internal/controller/torrent_controller.go:131 | Removal distributes over concatenation, so the entries that stay keep their relative order. |
| Finalizers.AddThenRemove | internal/controller/torrent_controller.go:93 | Adding a token that was absent and then removing it restores the list. |
| Finalizers.RemoveAppended | internal/controller/torrent_controller.go:131 | Removing a token that was appended to a list without it gives that list back. |
| TorrentApi.Torrent.constructor | api/v1alpha1/torrent_types.go:63-69 | A Torrent object holds the given metadata, spec and status. |
| TorrentController.Observe | internal/controller/torrent_controller.go:248-301 | Afterwards the eight observed fields equal the record's, and the conditions are kept. The status is unchanged exactly when it already mirrored the record, so a second call changes nothing. |
| TorrentController.TorrentReconciler.constructor | internal/controller/torrent_controller.go:35-39 | The reconciler holds its qBittorrent client and has written nothing yet. |
| TorrentController.TorrentReconciler.Reconcile | internal/controller/torrent_controller.go:73-103 | The new Torrent, result, error, store writes and requests of one pass are those of `ReconcileOutcome`. |
| TorrentController.TorrentReconciler.HandleDeletion | internal/controller/torrent_controller.go:105-139 | The deletion pass computes `DeletionOutcome`: a delete with its files when a hash is known, and the finalizer kept on failure. |
| TorrentController.TorrentReconciler.Synchronize | internal/controller/torrent_controller.go:141-215 | The synchronising step computes `SyncOutcome`: a malformed URI is returned at once, otherwise the step continues with the hash. |
| TorrentController.TorrentReconciler.SynchronizeHash | internal/controller/torrent_controller.go:153-215 | The lookup, and then the add or the mirroring, compute `HashedOutcome`. A lookup error leaves the Torrent Degraded with a 10-second retry. |
| TorrentController.TorrentReconciler.AddMissingTorrent | internal/controller/torrent_controller.go:168-193 | Adding a missing torrent computes `AddOutcome`. |
| TorrentController.TorrentReconciler.MirrorListedTorrent | internal/controller/torrent_controller.go:195-214 | Mirroring a listed torrent computes `ListedOutcome`: the fields are written only when changed, and an error from that write ends the pass. |
| TorrentController.TorrentReconciler.SetDegradedCondition | internal/controller/torrent_controller.go:218-230 | The conditions become `WithDegraded` of the old ones, and every other status field is kept. |
| TorrentController.TorrentReconciler.SetAvailableCondition | internal/controller/torrent_controller.go:233-245 | The conditions become `WithAvailable` of the old ones, and every other status field is kept. |
| TorrentController.TorrentReconciler.UpdateTorrentStatus | internal/controller/torrent_controller.go:248-301 | The eight field-by-field copies leave the status as `Observe` gives it. The flag is true exactly when some field differed. |
| TorrentControllerProperties.DegradeSets | internal/controller/torrent_controller.go:218-230 | Degrading sets Degraded with the reason and message, removes Available, and leaves the observed fields alone. |
| TorrentControllerProperties.MakeAvailableSets | internal/controller/torrent_controller.go:233-245 | The same for Available. |
| TorrentControllerProperties.FetchFailureEndsPass | internal/controller/torrent_controller.go:77-82 | When Get finds nothing, the pass ends with no requeue and no error. Any other Get error is returned. Neither case writes or sends anything. |
| TorrentControllerProperties.DeletionComesFirst | internal/controller/torrent_controller.go:84-88 | A Torrent marked for deletion takes the deletion path whether or not it has the finalizer. Its only request is a delete of the observed hash, it sends none when the hash is empty, and it never adds the finalizer. |
| TorrentControllerProperties.DeleteRemovesFiles | internal/controller/torrent_controller.go:113-114 | Every delete request posts to the delete endpoint with `hashes`=hash and `deleteFiles`=`true`. |
| TorrentControllerProperties.EmptyHashReleases | internal/controller/torrent_controller.go:110-138 | With an empty observed hash, no request is sent and the finalizer is removed. The status is unchanged, there is no requeue, and the error is the update's. |
| TorrentControllerProperties.DeletionGuard | internal/controller/torrent_controller.go:105-139 | The finalizer survives a deletion pass exactly when a delete was sent and failed. In that case the Torrent is Degraded/FailedToDeleteTorrent with the client's message, retries after 10 seconds, and returns no error. Otherwise only the finalizer is removed. |
| TorrentControllerProperties.FinalizerAddedFirst | internal/controller/torrent_controller.go:90-99 | A live Torrent without the finalizer only gets it appended. It sends no request and the status is unchanged. The requeue is 1 second, or no requeue and the update's error. |
| TorrentControllerProperties.MalformedURIStopsPass | internal/controller/torrent_controller.go:145-150 | A malformed URI returns the extractor's error with no request, no write and no change. |
| TorrentControllerProperties.LookupFailureDegrades | internal/controller/torrent_controller.go:153-166 | A lookup error gives Degraded/FailedToGetTorrentInfo with its message, a 10-second retry and no error. Only the list request is sent. |
| TorrentControllerProperties.MissingTorrentIsAdded | internal/controller/torrent_controller.go:168-193 | An unlisted torrent is added with the whole URI. The pass then gives Degraded/FailedToAddTorrent with a 10-second retry, or Available/TorrentAdded with a 5-second retry. The observed fields are untouched. |
| TorrentControllerProperties.ListedTorrentIsMirrored | internal/controller/torrent_controller.go:195-214 | A listed torrent is mirrored. A field write happens only on change. If that write fails, the pass returns its error with the conditions untouched. Otherwise the Torrent is Available/TorrentActive with a 30-second retry. |
| TorrentControllerProperties.PassKeepsConditionsSound | internal/controller/torrent_controller.go:217-245 | Every pass keeps one entry per type, and never leaves Available and Degraded both True. |
| TorrentControllerProperties.DelayMatchesCondition | internal/controller/torrent_controller.go:73-215 | The delay is one of 0, 1, 5, 10 or 30 seconds, and a returned error never requeues. A 10-second delay means Degraded; 5 or 30 seconds means Available. |
| TorrentControllerProperties.LivePassKeepsFinalizer | internal/controller/torrent_controller.go:90-102 | A pass over a live Torrent leaves the finalizer in place, and so does every object write it makes. The hash becomes non-empty only after a lookup. |
| TorrentControllerProperties.SyncWritesOnlyStatus | internal/controller/torrent_controller.go:141-215 | The synchronising step writes only the status. It never changes finalizers or spec, and it changes the hash only after a lookup. |
| TorrentControllerProperties.SettledPassIsFixpoint | internal/controller/torrent_controller.go:195-214 | After a pass that marked a listed torrent Active, a second pass with the same listing leaves the Torrent as it is. It makes only the condition write and asks for the same delay. |
| TorrentControllerProperties.DeleteBeforeObservedKeepsRemote | internal/controller/torrent_controller.go:186-192 | After a successful add the hash is still empty. A deletion before the next pass therefore sends no delete and releases the finalizer. |
| TorrentControllerProperties.ExampleTorrentIsAdded | internal/controller/torrent_controller.go:168-192 | `magnet:?xt=urn:btih:ABC123&dn=test`, when not listed, is added with the whole URI and becomes Available/TorrentAdded with a 5-second retry. |
| TorrentControllerProperties.StateChangeIsMirrored | internal/controller/torrent_controller.go:263-269 | A state change from downloading to uploading is mirrored and written, and the Torrent is Available/TorrentActive with a 30-second retry. |
| TorrentControllerProperties.DeleteTransportFailure | internal/controller/torrent_controller.go:113-124 | A delete that fails in transport keeps the finalizer and sets Degraded/FailedToDeleteTorrent with "failed to delete torrent: …". The pass retries after 10 seconds. |

## Left out

- HTTP transport: `http.Client`, its 5-second timeout and cookie parsing are left out. A reply is
  given as a value: a transport failure, or a status, status line, cookies and body.
- `http.NewRequest` failures and `CreateFormField` failures are left out. Both need a malformed
  base URL or a failing in-memory writer, so the "failed to create request" and "failed to create
  form field" errors are not modelled.
- URL percent-encoding and the multipart wire format are left out. A form is a list of key/value
  fields, in the order `url.Values.Encode` writes them (sorted by key).
- JSON decoding is left out. A body either decodes to records or fails with a cause.
- 64-bit widths are not modelled: `AddedOn`, `TotalSize` and the other int64 fields are unbounded
  integers. Only equality is used on them.
- Logging throughout is left out.
- `time.Now()` is the `now` parameter.
- The zero-time fill-in of `meta.SetStatusCondition` is left out, because the controller always
  passes a time.
- `ObservedGeneration` is always 0, since the controller never sets it.
- Concurrency and context cancellation are left out: the shared client across workers, and `ctx`.
- Kubernetes store semantics are left out: resource versions, conflicts, and the store's reply
  replacing the in-memory object after `Update`.
- Status writes whose failure the code only logs are recorded as writes with no outcome: after a
  Degraded condition, after TorrentAdded, and after TorrentActive.
- `DeletionTimestamp` is an optional integer. A zero `metav1.Time` counts as absent.
- The Kubernetes condition helpers (`meta.SetStatusCondition`, `meta.RemoveStatusCondition`,
  `meta.FindStatusCondition`) come from `k8s.io/apimachinery/pkg/api/meta`, outside this
  repository. They are modelled from their documented behaviour.
- The finalizer helpers (`ContainsFinalizer`, `AddFinalizer`, `RemoveFinalizer`) come from
  `sigs.k8s.io/controller-runtime/pkg/controller/controllerutil`, outside this repository. They
  are modelled from their documented behaviour.
- `SetupWithManager`, RBAC markers and scheme registration are wiring with no behaviour to model.
- There is no automatic re-login on 401, because the code has none.
