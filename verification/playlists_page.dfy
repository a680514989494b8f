/**
 * The recency order of src/pages/PlaylistsPage.tsx: a copy of the playlists
 * sorted by `updatedAt`, newest first. The comparator `b - a` with the stable
 * `Array.prototype.sort` keeps playlists with equal stamps in their stored
 * order. The store's sequence is a value here, so sorting the copy cannot
 * change it.
 */
module PlaylistsPage {
  import opened Types
  import opened Seqs

  /** Newest first: `updatedAt` never increases along the sequence. */
  predicate NewestFirst(ps: seq<Playlist>) {
    forall i, j :: 0 <= i < j < |ps| ==> ps[i].updatedAt >= ps[j].updatedAt
  }

  /** The playlists stamped `t`, in their order. */
  function StampedAt(ps: seq<Playlist>, t: int): seq<Playlist> {
    Filter(ps, (p: Playlist) => p.updatedAt == t)
  }

  /** Put `p` in front of the first playlist that is not newer than it. */
  function Insert(p: Playlist, s: seq<Playlist>): (r: seq<Playlist>)
    ensures multiset(r) == multiset(s) + multiset{p}
  {
    if s == [] || s[0].updatedAt <= p.updatedAt then [p] + s
    else
      assert s == [s[0]] + s[1..];
      [s[0]] + Insert(p, s[1..])
  }

  /** Inserting into a newest-first sequence keeps it newest first. */
  lemma {:induction false} InsertNewestFirst(p: Playlist, s: seq<Playlist>)
    requires NewestFirst(s)
    ensures NewestFirst(Insert(p, s))
  {
    if s != [] && s[0].updatedAt > p.updatedAt {
      var rest := Insert(p, s[1..]);
      InsertNewestFirst(p, s[1..]);
      forall k | 0 <= k < |rest|
        ensures s[0].updatedAt >= rest[k].updatedAt
      {
        assert rest[k] in multiset(rest);
        if rest[k] != p {
          assert rest[k] in multiset(s[1..]);
          var j :| 0 <= j < |s[1..]| && s[1..][j] == rest[k];
          assert s[j + 1] == rest[k];
        }
      }
      assert Insert(p, s) == [s[0]] + rest;
    }
  }

  /**
   * `[...playlists].sort((a, b) => b.updatedAt - a.updatedAt)`: the same
   * playlists, newest first.
   */
  function SortByRecency(ps: seq<Playlist>): (r: seq<Playlist>)
    ensures multiset(r) == multiset(ps) && |r| == |ps|
    ensures NewestFirst(r)
  {
    if ps == [] then []
    else
      var rest := SortByRecency(ps[1..]);
      assert ps == [ps[0]] + ps[1..];
      InsertNewestFirst(ps[0], rest);
      var r := Insert(ps[0], rest);
      assert |multiset(r)| == |r|;
      r
  }

  /** Inserting `p` adds it in front of the playlists with its stamp and leaves the others in order. */
  lemma {:induction false} InsertStable(p: Playlist, s: seq<Playlist>, t: int)
    ensures StampedAt(Insert(p, s), t) == if p.updatedAt == t then [p] + StampedAt(s, t) else StampedAt(s, t)
  {
    if s == [] || s[0].updatedAt <= p.updatedAt {
      assert ([p] + s)[1..] == s;
    } else {
      InsertStable(p, s[1..], t);
      assert ([s[0]] + Insert(p, s[1..]))[1..] == Insert(p, s[1..]);
    }
  }

  /** Stability: for every stamp, the playlists carrying it keep their relative order. */
  lemma {:induction false} SortByRecencyStable(ps: seq<Playlist>, t: int)
    ensures StampedAt(SortByRecency(ps), t) == StampedAt(ps, t)
  {
    if ps != [] {
      SortByRecencyStable(ps[1..], t);
      InsertStable(ps[0], SortByRecency(ps[1..]), t);
    }
  }

  /** The first playlist shown is a most recently updated one. */
  lemma SortByRecencyFirst(ps: seq<Playlist>)
    requires ps != []
    ensures forall p :: p in ps ==> SortByRecency(ps)[0].updatedAt >= p.updatedAt
  {
    var r := SortByRecency(ps);
    forall p | p in ps
      ensures r[0].updatedAt >= p.updatedAt
    {
      assert p in multiset(r);
    }
  }
}
