/** The Torrent resource of api/v1alpha1/torrent_types.go: the desired magnet URI, the observed
    fields the operator writes, and the metadata the controller reads or changes (deletion
    timestamp, finalizers). */
module TorrentApi {
  import opened Wrappers
  import opened Conditions

  /** TorrentSpec: what the user asks for. */
  datatype TorrentSpec = TorrentSpec(magnetURI: string)

  /** TorrentStatus: what the operator observed, in the field order of the source. */
  datatype TorrentStatus = TorrentStatus(
    contentPath: string,
    addedOn: int,
    state: string,
    totalSize: int,
    name: string,
    timeActive: int,
    amountLeft: int,
    hash: string,
    conditions: seq<Condition>)

  /** The value of a Torrent object at one moment. */
  datatype TorrentValue = TorrentValue(
    deletionTimestamp: Option<int>,
    finalizers: seq<string>,
    spec: TorrentSpec,
    status: TorrentStatus)
  {
    /** DeletionTimestamp.IsZero() is false: the runtime has marked the resource for deletion. */
    predicate MarkedForDeletion() {
      deletionTimestamp.Some?
    }
  }

  /** A Torrent object, which a reconciliation pass changes in place. */
  class Torrent {
    var deletionTimestamp: Option<int>
    var finalizers: seq<string>
    var spec: TorrentSpec
    var status: TorrentStatus

    constructor (v: TorrentValue)
      ensures Value() == v
    {
      deletionTimestamp := v.deletionTimestamp;
      finalizers := v.finalizers;
      spec := v.spec;
      status := v.status;
    }

    function Value(): TorrentValue
      reads this
    {
      TorrentValue(deletionTimestamp, finalizers, spec, status)
    }
  }
}
