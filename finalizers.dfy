/** The finalizer list of a Torrent, as the controller uses it through controllerutil's
    ContainsFinalizer, AddFinalizer and RemoveFinalizer: a list of strings treated as a set. */
module Finalizers {

  /** The token that keeps a Torrent from being removed until its remote torrent is deleted. */
  const TorrentFinalizer: string := "torrent.qbittorrent.io/finalizer"

  /** ContainsFinalizer: a linear scan for `f`. */
  function ContainsFinalizer(finalizers: seq<string>, f: string): (r: bool)
    ensures r <==> f in finalizers
  {
    if finalizers == [] then false
    else finalizers[0] == f || ContainsFinalizer(finalizers[1..], f)
  }

  /** AddFinalizer: appends `f` unless it is already there. */
  function AddFinalizer(finalizers: seq<string>, f: string): (r: seq<string>)
    ensures f in r
    ensures forall x :: x in r <==> x in finalizers || x == f
    ensures f in finalizers ==> r == finalizers
    ensures f !in finalizers ==> r == finalizers + [f]
    ensures |finalizers| <= |r| && r[..|finalizers|] == finalizers
  {
    if ContainsFinalizer(finalizers, f) then finalizers else finalizers + [f]
  }

  /** RemoveFinalizer: drops every copy of `f` and keeps the other entries (in their order, as
      RemoveKeepsOrder states). */
  function RemoveFinalizer(finalizers: seq<string>, f: string): (r: seq<string>)
    ensures f !in r
    ensures forall x :: x in r <==> x in finalizers && x != f
    ensures f !in finalizers ==> r == finalizers
  {
    if finalizers == [] then []
    else
      var rest := RemoveFinalizer(finalizers[1..], f);
      assert forall x :: x in finalizers <==> x == finalizers[0] || x in finalizers[1..];
      if finalizers[0] == f then rest else [finalizers[0]] + rest
  }

  /** Adding and then removing a finalizer that was absent restores the list. */
  lemma AddThenRemove(finalizers: seq<string>, f: string)
    requires f !in finalizers
    ensures RemoveFinalizer(AddFinalizer(finalizers, f), f) == finalizers
  {
    RemoveAppended(finalizers, f);
  }

  /** Removing `f` from a list that ends with `f` and holds it nowhere else gives the rest. */
  lemma {:induction false} RemoveAppended(finalizers: seq<string>, f: string)
    requires f !in finalizers
    ensures RemoveFinalizer(finalizers + [f], f) == finalizers
  {
    if finalizers != [] {
      assert (finalizers + [f])[1..] == finalizers[1..] + [f];
      RemoveAppended(finalizers[1..], f);
    }
  }

  /** Removal works piecewise: removing from a concatenation is the concatenation of the removals,
      so the entries that stay keep their relative order. */
  lemma {:induction false} RemoveKeepsOrder(front: seq<string>, back: seq<string>, f: string)
    ensures RemoveFinalizer(front + back, f) == RemoveFinalizer(front, f) + RemoveFinalizer(back, f)
  {
    if front == [] {
      assert front + back == back;
    } else {
      assert (front + back)[0] == front[0];
      assert (front + back)[1..] == front[1..] + back;
      RemoveKeepsOrder(front[1..], back, f);
    }
  }
}
