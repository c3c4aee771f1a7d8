/** The recent-projects list of `recent:read`, `recent:add` and
    `recent:clear`: most recent first, one entry per path, at most ten. The
    stored file is an input (None when it is missing or cannot be read or
    parsed), whether writing it succeeds is an input, and the clock reading
    is a parameter. */
module Recent {
  import opened Text
  import opened Paths
  import opened Lists

  datatype Entry = Entry(path: string, name: string, lastOpened: int)

  /** The list keeps at most this many entries. */
  const Limit: nat := 10

  /** The stored list, or the empty list when there is none to read. */
  function ReadStored(stored: Option<seq<Entry>>): (es: seq<Entry>)
    ensures stored.None? ==> es == []
    ensures stored.Some? ==> es == stored.value
  {
    if stored.Some? then stored.value else []
  }

  /** Accepts the entries for paths other than `p`. */
  function OtherPath(p: string): Entry -> bool
  {
    (e: Entry) => e.path != p
  }

  /** The entries whose path differs from `p`, in their order. */
  function Without(es: seq<Entry>, p: string): seq<Entry>
  {
    Filter(es, OtherPath(p))
  }

  /** The positions of the entries `Without` keeps. */
  function Kept(es: seq<Entry>, p: string): (ks: seq<int>)
    ensures forall i :: 0 <= i < |ks| ==> 0 <= ks[i] < |es| && es[ks[i]].path != p
    ensures forall i, j :: 0 <= i < j < |ks| ==> ks[i] < ks[j]
    ensures forall j :: 0 <= j < |es| && es[j].path != p ==> j in ks
  {
    var ks := Positions(es, OtherPath(p));
    assert forall j :: 0 <= j < |es| ==> (OtherPath(p)(es[j]) <==> es[j].path != p);
    ks
  }

  /** The new entry for `path`. */
  function NewEntry(path: string, now: int): Entry
  {
    Entry(path, Name(path), now)
  }

  /** The list after adding `path`: its new entry first, the other entries
      after it in their order, cut to `Limit`. */
  function Added(es: seq<Entry>, path: string, now: int): (r: seq<Entry>)
    ensures 1 <= |r| <= Limit
  {
    var l := [NewEntry(path, now)] + Without(es, path);
    if |l| <= Limit then l else l[..Limit]
  }

  /** `recent:add`: read the stored list, drop the path's old entry, put the
      new one first, cut to ten, and write it back. A failed write answers
      with the empty list and leaves the file as it was. Returns the answer
      and what was written. */
  method AddRecent(stored: Option<seq<Entry>>, path: string, now: int, writeOk: bool)
    returns (r: seq<Entry>, written: Option<seq<Entry>>)
    ensures writeOk ==> r == Added(ReadStored(stored), path, now) && written == Some(r)
    ensures !writeOk ==> r == [] && written == None
  {
    var es := ReadStored(stored);
    var kept: seq<Entry> := [];
    var i := 0;
    while i < |es|
      invariant 0 <= i <= |es|
      invariant kept == Without(es[..i], path)
    {
      FilterExtend(es, i, OtherPath(path));
      if es[i].path != path {
        kept := kept + [es[i]];
      }
      i := i + 1;
    }
    assert es[..|es|] == es;
    var l := [NewEntry(path, now)] + kept;
    if |l| > Limit {
      l := l[..Limit];
    }
    if writeOk {
      r, written := l, Some(l);
    } else {
      r, written := [], None;
    }
  }

  /** `recent:clear`: the answer is the empty list whether or not writing the
      empty file succeeds; what was written is returned beside it. */
  method ClearRecent(writeOk: bool) returns (r: seq<Entry>, written: Option<seq<Entry>>)
    ensures r == []
    ensures writeOk <==> written == Some([])
    ensures !writeOk ==> written == None
  {
    r := [];
    if writeOk {
      written := Some([]);
    } else {
      written := None;
    }
  }

  /** Putting `x` in front of `w` and cutting to `n` keeps `x` first and the
      front of `w` after it. */
  lemma ConsCut<T>(x: T, w: seq<T>, n: nat)
    requires 1 <= n
    ensures var l := [x] + w;
      var r := if |l| <= n then l else l[..n];
      && r[0] == x
      && |r| == (if |w| + 1 <= n then |w| + 1 else n)
      && forall i :: 1 <= i < |r| ==> r[i] == w[i - 1]
  {
  }

  /** The list after adding: the new entry, then the old entries for other
      paths from the front. */
  lemma AddedTail(es: seq<Entry>, path: string, now: int)
    ensures var r := Added(es, path, now);
      var w := Without(es, path);
      && r[0] == NewEntry(path, now)
      && |r| == (if |w| + 1 <= Limit then |w| + 1 else Limit)
      && forall i :: 1 <= i < |r| ==> r[i] == w[i - 1]
  {
    ConsCut(NewEntry(path, now), Without(es, path), Limit);
  }

  /** The added path comes first, with its name and the clock reading, and
      appears nowhere else. */
  lemma AddedFirstAndOnce(es: seq<Entry>, path: string, now: int)
    ensures var r := Added(es, path, now);
      && r[0] == Entry(path, Name(path), now)
      && forall i :: 1 <= i < |r| ==> r[i].path != path
  {
    AddedTail(es, path, now);
    FilterAt(es, OtherPath(path));
  }

  /** The entries after the first are the old entries for other paths, in
      their old order: entry `i` comes from position `Kept(es, path)[i - 1]`,
      and those positions increase. Only the oldest of them are cut, and only
      when there are more than nine. */
  lemma AddedKeepsOrder(es: seq<Entry>, path: string, now: int)
    ensures var r := Added(es, path, now);
      var ks := Kept(es, path);
      && |r| == (if |ks| + 1 <= Limit then |ks| + 1 else Limit)
      && forall i :: 1 <= i < |r| ==> r[i] == es[ks[i - 1]]
  {
    AddedTail(es, path, now);
    FilterAt(es, OtherPath(path));
  }

  /** Every old entry for another path survives when the list does not
      overflow. */
  lemma AddedKeepsAllWhenRoom(es: seq<Entry>, path: string, now: int, j: nat)
    requires j < |es| && es[j].path != path
    requires |es| < Limit
    ensures es[j] in Added(es, path, now)
  {
    FilterAt(es, OtherPath(path));
    var ks := Kept(es, path);
    assert j in ks;
    var i :| 0 <= i < |ks| && ks[i] == j;
    AddedTail(es, path, now);
  }

  /** Adding the same path again at the same moment changes nothing. */
  lemma AddedIdempotent(es: seq<Entry>, path: string, now: int)
    ensures Added(Added(es, path, now), path, now) == Added(es, path, now)
  {
    var r := Added(es, path, now);
    AddedFirstAndOnce(es, path, now);
    assert r == [r[0]] + r[1..];
    FilterDropFront(r[0], r[1..], OtherPath(path));
    FilterAll(r[1..], OtherPath(path));
  }
}
