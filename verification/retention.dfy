/** `cleanupOutputDirectory` (dump.js): remove the dated snapshot
    directories older than the retention window.

    The clock reading `now`, the directory listing, `Date.parse` and the
    recursive remove are parameters: `listing` is `None` when reading the
    directory fails, `parse` is `None` where `Date.parse` gives NaN, and
    `remove(path)` is false when removing `path` throws. */
module Retention {
  import opened Wrappers

  const MillisPerDay: int := 24 * 60 * 60 * 1000

  /** The largest age, in milliseconds, a snapshot may reach and be kept. */
  function MaxAge(retentionDays: int): int {
    retentionDays * MillisPerDay
  }

  /** `now - Date.parse(name) > maxAge`. A name that does not parse gives
      NaN, and every comparison with NaN is false. */
  predicate Expired(name: string, now: int, retentionDays: int, parse: string -> Option<int>) {
    match parse(name)
    case None => false
    case Some(created) => now - created > MaxAge(retentionDays)
  }

  /** The expired names of `names`, in listing order. */
  function Eligible(names: seq<string>, now: int, retentionDays: int, parse: string -> Option<int>): (r: seq<string>)
    ensures |r| <= |names|
    ensures forall n | n in r :: n in names && Expired(n, now, retentionDays, parse)
    ensures forall n | n in names && Expired(n, now, retentionDays, parse) :: n in r
  {
    if |names| == 0 then []
    else
      var last := names[|names| - 1];
      assert forall n | n in names :: n in names[..|names| - 1] || n == last by {
        assert names == names[..|names| - 1] + [last];
      }
      Eligible(names[..|names| - 1], now, retentionDays, parse)
        + (if Expired(last, now, retentionDays, parse) then [last] else [])
  }

  /** The sweep's targets keep the listing's order: those of a listing
      split in two are the targets of the first part, then those of the
      second. */
  lemma {:induction false} EligibleAppend(a: seq<string>, b: seq<string>, now: int, retentionDays: int,
                                          parse: string -> Option<int>)
    ensures Eligible(a + b, now, retentionDays, parse)
            == Eligible(a, now, retentionDays, parse) + Eligible(b, now, retentionDays, parse)
    decreases |b|
  {
    if |b| == 0 {
      assert a + b == a;
    } else {
      var init := b[..|b| - 1];
      var last := b[|b| - 1];
      var tail := if Expired(last, now, retentionDays, parse) then [last] else [];
      assert (a + b)[..|a + b| - 1] == a + init;
      assert (a + b)[|a + b| - 1] == last;
      EligibleAppend(a, init, now, retentionDays, parse);
      assert Eligible(b, now, retentionDays, parse) == Eligible(init, now, retentionDays, parse) + tail;
    }
  }

  /** A one-entry listing targets its entry exactly when it is expired. */
  lemma EligibleSingle(name: string, now: int, retentionDays: int, parse: string -> Option<int>)
    ensures Eligible([name], now, retentionDays, parse)
            == if Expired(name, now, retentionDays, parse) then [name] else []
  {
  }

  /** The path removed for a directory entry. */
  function EntryPath(directory: string, name: string): string {
    directory + "/" + name
  }

  datatype SweepError = ListFailed | RemoveFailed(name: string)

  /** The entries removed, in order, and the error that ended the sweep. */
  datatype Sweep = Sweep(removed: seq<string>, error: Option<SweepError>)

  /** The sweep: entries are visited in listing order and only expired ones
      are removed. One try/catch wraps the whole loop, so the first removal
      that throws ends the sweep and the remaining entries are left alone;
      the error is logged and never reaches the caller. */
  method CleanupOutputDirectory(directory: string, listing: Option<seq<string>>, now: int, retentionDays: int,
                                parse: string -> Option<int>, remove: string -> bool) returns (s: Sweep)
    ensures s.error == Some(ListFailed) <==> listing.None?
    ensures listing.None? ==> s.removed == []
    ensures forall n | n in s.removed :: Expired(n, now, retentionDays, parse) && remove(EntryPath(directory, n))
    ensures s.error.None? ==> s.removed == Eligible(listing.value, now, retentionDays, parse)
    ensures s.error.Some? && s.error.value.RemoveFailed? ==>
      exists k | 0 <= k < |listing.value| ::
        && listing.value[k] == s.error.value.name
        && Expired(listing.value[k], now, retentionDays, parse)
        && !remove(EntryPath(directory, listing.value[k]))
        && s.removed == Eligible(listing.value[..k], now, retentionDays, parse)
  {
    if listing.None? {
      return Sweep([], Some(ListFailed));
    }
    var names := listing.value;
    var removed: seq<string> := [];
    var i := 0;
    while i < |names|
      invariant 0 <= i <= |names|
      invariant removed == Eligible(names[..i], now, retentionDays, parse)
      invariant forall n | n in removed :: Expired(n, now, retentionDays, parse) && remove(EntryPath(directory, n))
    {
      var name := names[i];
      assert names[..i + 1][..i] == names[..i];
      if Expired(name, now, retentionDays, parse) {
        if !remove(EntryPath(directory, name)) {
          return Sweep(removed, Some(RemoveFailed(name)));
        }
        removed := removed + [name];
      }
      i := i + 1;
    }
    assert names[..i] == names;
    return Sweep(removed, None);
  }

  /** The window is strict: a snapshot exactly `retentionDays` days old (to
      the millisecond) is kept, one a millisecond older is removed, and a
      name that is not a date is always kept. */
  lemma RetentionBoundary(now: int, retentionDays: int, parse: string -> Option<int>,
                          atLimit: string, pastLimit: string, notADate: string)
    requires parse(atLimit) == Some(now - retentionDays * 86_400_000)
    requires parse(pastLimit) == Some(now - retentionDays * 86_400_000 - 1)
    requires parse(notADate).None?
    ensures !Expired(atLimit, now, retentionDays, parse)
    ensures Expired(pastLimit, now, retentionDays, parse)
    ensures !Expired(notADate, now, retentionDays, parse)
  {
  }
}
