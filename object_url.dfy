/**
 * The one-entry object-URL memo of src/lib/useObjectUrl.ts. A URL is
 * created for the current blob, and the previous URL is revoked whenever the
 * blob changes. URLs are modelled as numbers handed out by a fresh-id
 * allocator; the calls to `URL.createObjectURL` and `URL.revokeObjectURL`
 * are recorded in a log.
 */
module ObjectUrl {
  import opened Wrappers

  /** A blob is known by its identity only. */
  type Blob = nat

  /** An object URL, by the id it was allocated with. */
  type Url = nat

  datatype Event = Created(url: Url, blob: Blob) | Revoked(url: Url)

  /** The URLs created and not yet revoked after the events of `log`. */
  function Live(log: seq<Event>): (live: set<Url>)
    ensures forall u :: u in live ==> exists i :: 0 <= i < |log| && log[i].Created? && log[i].url == u
  {
    if log == [] then {}
    else
      var before := Live(log[..|log| - 1]);
      match log[|log| - 1]
      case Created(u, _) => before + {u}
      case Revoked(u) => before - {u}
  }

  /** Every URL in `log` is below `next`. */
  predicate AllBelow(log: seq<Event>, next: nat) {
    forall i :: 0 <= i < |log| ==> log[i].url < next
  }

  /** The events of one call that changes the blob: revoke the old URL, if any, then create the new one, if any. */
  function Transition(revoked: Option<Url>, created: Option<(Url, Blob)>): seq<Event> {
    (if revoked.Some? then [Revoked(revoked.value)] else []) +
    (if created.Some? then [Created(created.value.0, created.value.1)] else [])
  }

  /**
   * Replacing the only live URL by a fresh one leaves exactly the fresh one
   * live; revoking it without a replacement leaves none.
   */
  lemma {:induction false} LiveAfterTransition(log: seq<Event>, revoked: Option<Url>, created: Option<(Url, Blob)>)
    requires Live(log) == if revoked.Some? then {revoked.value} else {}
    ensures Live(log + Transition(revoked, created)) ==
      if created.Some? then {created.value.0} else {}
  {
    var mid := log + (if revoked.Some? then [Revoked(revoked.value)] else []);
    if revoked.Some? {
      assert mid[..|mid| - 1] == log;
    } else {
      assert mid == log;
    }
    assert Live(mid) == {};
    var all := mid + (if created.Some? then [Created(created.value.0, created.value.1)] else []);
    assert all == log + Transition(revoked, created);
    if created.Some? {
      assert all[..|all| - 1] == mid;
    }
  }

  /** The hook's two refs, and the allocator and log that stand for the URL API. */
  class UrlCache {
    var prevBlob: Option<Blob>
    var prevUrl: Option<Url>
    /** The id the next created URL gets. */
    var next: nat
    var log: seq<Event>

    /**
     * A URL is remembered exactly when a blob is; it is the one URL created
     * and not revoked, and it was created for that blob.
     */
    ghost predicate Valid()
      reads this
    {
      && (prevBlob.Some? <==> prevUrl.Some?)
      && Live(log) == (if prevUrl.Some? then {prevUrl.value} else {})
      && AllBelow(log, next)
      && (prevUrl.Some? ==> |log| > 0 && log[|log| - 1] == Created(prevUrl.value, prevBlob.value))
    }

    /** The refs start out null and nothing has been created. */
    constructor ()
      ensures Valid() && prevBlob == None && prevUrl == None && log == []
    {
      prevBlob, prevUrl, next, log := None, None, 0, [];
    }

    /**
     * `useObjectUrl(blob)`, `None` standing for both `null` and `undefined`.
     * The same blob as last time gives the same URL and touches nothing; a
     * different one revokes the old URL, if any, and then creates a URL for
     * the new blob, if there is one.
     */
    method Use(blob: Option<Blob>) returns (url: Option<Url>)
      requires Valid()
      modifies this
      ensures Valid() && url == prevUrl && prevBlob == blob
      ensures blob == old(prevBlob) ==> url == old(prevUrl) && log == old(log) && next == old(next)
      ensures blob != old(prevBlob) ==>
        && (url.Some? <==> blob.Some?)
        && (url.Some? ==> url.value == old(next) && next == old(next) + 1)
        && (url.None? ==> next == old(next))
        && (url.Some? ==> url.value !in Live(old(log)))
        && log == old(log) + Transition(old(prevUrl), if blob.Some? then Some((old(next), blob.value)) else None)
      ensures Live(log) == if url.Some? then {url.value} else {}
    {
      if blob != prevBlob {
        FreshNotLive(log, next);
        var created: Option<(Url, Blob)> := None;
        var revoked := prevUrl;
        prevBlob := blob;
        if prevUrl.Some? {
          log := log + [Revoked(prevUrl.value)];
        }
        if blob.Some? {
          created := Some((next, blob.value));
          log := log + [Created(next, blob.value)];
          prevUrl := Some(next);
          next := next + 1;
        } else {
          prevUrl := None;
        }
        LiveAfterTransition(old(log), revoked, created);
        assert log == old(log) + Transition(revoked, created);
      }
      url := prevUrl;
    }
  }

  /** A freshly created URL was never live before: every URL in the log is older. */
  lemma FreshNotLive(log: seq<Event>, next: nat)
    requires AllBelow(log, next)
    ensures next !in Live(log)
  {
  }
}
